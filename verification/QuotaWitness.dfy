/** Two providers with both pools spent: one whose split card is not what is
    documented, since GEM has no reset at all and EXT is due since after the year 4001
    began; and one whose card changes with the order of two tied windows. */
module QuotaWitness {
  import opened Text
  import opened Wrappers
  import opened QuotaWindows
  import opened QuotaPools
  import opened Q = QuotaState
  import opened QuotaOrder

  const GEM_KEY := "5h gemini"
  const EXT_KEY := "5h external"

  function SpentWindow(key: string, resetsAt: Option<string>): QuotaWindow {
    QuotaWindow(Some(key), None, Some(100.0), resetsAt, None, None, None, None)
  }

  function Gemini(resetsAt: Option<string>): QuotaWindow { SpentWindow(GEM_KEY, resetsAt) }

  function External(resetsAt: Option<string>): QuotaWindow { SpentWindow(EXT_KEY, resetsAt) }

  function Provider(ws: seq<QuotaWindow>): ProviderUsage {
    ProviderUsage("antigravity", "ok", ws, None, None, None)
  }

  // ------------------------------------------------------------ classification

  lemma LowerKeys()
    ensures Lower(GEM_KEY) + " " + Lower("") == "5h gemini "
    ensures Lower(EXT_KEY) + " " + Lower("") == "5h external "
  {
    var g, e := GEM_KEY, EXT_KEY;
    assert Lower(g) == g;
    assert Lower(e) == e;
    assert Lower("") == "";
  }

  lemma GeminiHay()
    ensures var g := "5h gemini ";
            Contains(g, "gemini") && !Contains(g, "external") && !Contains(g, "claude/gpt")
  {
    var g := "5h gemini ";
    GeminiParts(g);
    hide Contains;
    ContainsAt(g, "gemini", 3);
    ContainsChar(g, "external", 'x');
    ContainsChar(g, "claude/gpt", '/');
  }

  lemma GeminiParts(g: string)
    requires g == "5h gemini "
    ensures |g| == 10 && g[3..9] == "gemini" && 'x' !in g && '/' !in g
    ensures 'x' in "external" && '/' in "claude/gpt"
  {
    assert "external"[1] == 'x' && "claude/gpt"[6] == '/';
  }

  lemma ExternalHay()
    ensures Contains("5h external ", "external")
  {
    var e := "5h external ";
    assert |e| == 12 && e[3..11] == "external";
    hide Contains;
    ContainsAt(e, "external", 3);
  }

  lemma FiveHourHays()
    ensures Contains("5h gemini ", "5h") && Contains("5h external ", "5h")
    ensures !("scoped_" <= GEM_KEY) && !("scoped_" <= EXT_KEY)
  {
    var g, e := "5h gemini ", "5h external ";
    assert g[0..2] == "5h" && e[0..2] == "5h";
    assert GEM_KEY[0] == '5' && EXT_KEY[0] == '5' && "scoped_"[0] == 's';
    hide Contains;
    ContainsAt(g, "5h", 0);
    ContainsAt(e, "5h", 0);
  }

  lemma Classified(resetsAt: Option<string>)
    ensures var g, e := Gemini(resetsAt), External(resetsAt);
            && NotchWindowKind(g) == NotchWindowKind(e) == Some(FiveHour)
            && NotchWindowTag(g) == Some(GEM) && NotchWindowTag(e) == Some(EXT)
  {
    LowerKeys();
    assert Haystack(Gemini(resetsAt)) == "5h gemini " && Haystack(External(resetsAt)) == "5h external ";
    GeminiHay();
    ExternalHay();
    FiveHourHays();
    hide Contains, Haystack, GEM_KEY, EXT_KEY;
  }

  // ------------------------------------------------------------- spent windows

  /** One of the windows above, with some reset. */
  predicate IsSpent(w: QuotaWindow) {
    w == Gemini(w.resetsAt) || w == External(w.resetsAt)
  }

  lemma SpentFacts(w: QuotaWindow)
    requires IsSpent(w)
    ensures Counts(w, FiveHour, Some(GEM)) <==> w == Gemini(w.resetsAt)
    ensures Counts(w, FiveHour, Some(EXT)) <==> w == External(w.resetsAt)
    ensures forall tag :: !Counts(w, Weekly, tag)
    ensures w.usedPercent.Some? && Remaining(w) == 0.0 && w.remaining == None && w.windowMinutes == None
  {
    Classified(w.resetsAt);
    hide NotchWindowKind, NotchWindowTag, GEM_KEY, EXT_KEY;
  }

  /** A provider of such windows, one of either tag among them, is blocked. */
  lemma SpentProvider(p: Presenter, ws: seq<QuotaWindow>, g: Option<string>, e: Option<string>)
    requires AllSpent(ws) && Gemini(g) in ws && External(e) in ws
    ensures var u := Provider(ws);
            && !WeeklySpent(u, GEM) && !WeeklySpent(u, EXT) && Spent(u, GEM) && Spent(u, EXT) && NoUsableCredits(u)
            && |PoolsOf(p, u)| >= 2
  {
    var u := Provider(ws);
    assert IsSpent(Gemini(g)) && IsSpent(External(e));
    forall w | w in ws
      ensures w.usedPercent.Some? && Remaining(w) == 0.0 && w.remaining == None && forall tag :: !Counts(w, Weekly, tag)
    {
      SpentFacts(w);
    }
    SpentForms(g);
    SpentForms(e);
    hide Counts, Gemini, External, IsSpent, Remaining, PoolsOf;
    assert InPool(Gemini(g), GEM) && InPool(External(e), EXT);
    SpentPools(p, u);
  }

  lemma LeastSpent(ws: seq<QuotaWindow>, w: QuotaWindow, tag: PoolTag)
    requires AllSpent(ws) && w in ws && Counts(w, FiveHour, Some(tag))
    ensures LeastCounting(ws, w, FiveHour, Some(tag))
  {
    forall x | x in ws ensures x.usedPercent.Some? && Remaining(x) == 0.0 {
      SpentFacts(x);
    }
    hide Counts, Remaining, IsSpent;
  }

  /** The first window of a tag is the one its pool waits for. */
  lemma FirstWaits(p: Presenter, ws: seq<QuotaWindow>, before: seq<QuotaWindow>, w: QuotaWindow,
                   rest: seq<QuotaWindow>, tag: PoolTag)
    requires ws == before + [w] + rest && AllSpent(ws) && !WeeklySpent(Provider(ws), tag)
    requires Counts(w, FiveHour, Some(tag)) && NoneOf(before, tag)
    ensures var u := Provider(ws);
            && Pick(p, u, BlockKind(u, tag), Some(tag)) == TakeSnapshot(p, u, w, FiveHour)
            && BlockingSnapshot(PoolOf(p, u, u.windows, tag)) == Pick(p, u, BlockKind(u, tag), Some(tag))
            && (AwaitingReset(p, Pick(p, u, BlockKind(u, tag), Some(tag))) <==> WindowDue(p, u, w))
  {
    var u := Provider(ws);
    assert w in ws && u.windows == ws;
    assert Pick(p, u, BlockKind(u, tag), Some(tag)) == Pick(p, u, FiveHour, Some(tag));
    hide AllSpent, Counts, WeeklySpent, BlockingSnapshot, PoolOf, WindowDue, AwaitingReset, Pick, BlockKind, Provider;
    hide TakeSnapshot, LeastCounting;
    LeastSpent(ws, w, tag);
    FirstPick(p, u, before, w, rest, FiveHour, Some(tag));
    PickedIsDue(p, u, before, w, rest, FiveHour, Some(tag));
    PoolWaitsForPick(p, u, tag);
  }

  predicate NoneOf(ws: seq<QuotaWindow>, tag: PoolTag) {
    forall w | w in ws :: !Counts(w, FiveHour, Some(tag))
  }

  predicate AllSpent(ws: seq<QuotaWindow>) {
    forall w | w in ws :: IsSpent(w)
  }

  // ------------------------------------------------------------ after the year 4001

  const LATE_RESET := "4001-01-01T00:00:01Z"

  function LateProvider(): ProviderUsage { Provider([Gemini(None)] + [External(Some(LATE_RESET))]) }

  /** Two seconds into the year 4001; every timestamp reads as one second into it. */
  function LatePresenter(): Presenter {
    Presenter(DISTANT_FUTURE + 2.0, text => Some(DISTANT_FUTURE + 1.0))
  }

  lemma LateBlocked()
    ensures var p, u := LatePresenter(), LateProvider();
            && Spent(u, GEM) && Spent(u, EXT) && NoUsableCredits(u) && |PoolsOf(p, u)| >= 2
            && !WeeklySpent(u, GEM) && !WeeklySpent(u, EXT)
  {
    var a, b := Gemini(None), External(Some(LATE_RESET));
    assert LateProvider() == Provider([a] + [b]);
    assert ([a] + [b])[0] == a && ([a] + [b])[1] == b;
    hide *;
    SpentForms(None);
    SpentForms(Some(LATE_RESET));
    TwoSpent(a, b);
    SpentProvider(LatePresenter(), [a] + [b], None, Some(LATE_RESET));
  }

  lemma SpentForms(r: Option<string>)
    ensures IsSpent(Gemini(r)) && IsSpent(External(r))
    ensures Counts(Gemini(r), FiveHour, Some(GEM)) && !Counts(Gemini(r), FiveHour, Some(EXT))
    ensures Counts(External(r), FiveHour, Some(EXT)) && !Counts(External(r), FiveHour, Some(GEM))
  {
    Classified(r);
    hide NotchWindowKind, NotchWindowTag, GEM_KEY, EXT_KEY;
  }

  lemma TwoSpent(a: QuotaWindow, b: QuotaWindow)
    requires IsSpent(a) && IsSpent(b) && !Counts(a, FiveHour, Some(EXT))
    ensures AllSpent([a] + [b]) && NoneOf([], GEM) && NoneOf([a], EXT)
  {
    hide IsSpent, Counts;
  }

  lemma ThreeSpent(x: QuotaWindow, y: QuotaWindow, z: QuotaWindow)
    requires IsSpent(x) && IsSpent(y) && IsSpent(z)
    requires !Counts(x, FiveHour, Some(EXT)) && !Counts(y, FiveHour, Some(EXT))
    ensures AllSpent([x] + [y, z]) && NoneOf([], GEM) && NoneOf([x, y], EXT)
  {
    hide IsSpent, Counts;
  }

  /** Of two windows of different tags, each pool waits for its own. */
  lemma PairWaits(p: Presenter, a: QuotaWindow, b: QuotaWindow)
    requires AllSpent([a] + [b]) && Counts(a, FiveHour, Some(GEM)) && Counts(b, FiveHour, Some(EXT))
    requires !WeeklySpent(Provider([a] + [b]), GEM) && !WeeklySpent(Provider([a] + [b]), EXT) && NoneOf([a], EXT)
    ensures var u := Provider([a] + [b]);
            && BlockingSnapshot(PoolOf(p, u, u.windows, GEM)) == TakeSnapshot(p, u, a, FiveHour)
            && BlockingSnapshot(PoolOf(p, u, u.windows, EXT)) == TakeSnapshot(p, u, b, FiveHour)
  {
    assert NoneOf([], GEM);
    hide *;
    var ws := [a] + [b];
    assert ws == [] + [a] + [b] == [a] + [b] + [];
    FirstWaits(p, ws, [], a, [b], GEM);
    FirstWaits(p, ws, [a], b, [], EXT);
  }

  lemma LateWaits()
    ensures var p, u := LatePresenter(), LateProvider();
            && BlockingSnapshot(PoolOf(p, u, u.windows, GEM)) == TakeSnapshot(p, u, Gemini(None), FiveHour)
            && BlockingSnapshot(PoolOf(p, u, u.windows, EXT))
               == TakeSnapshot(p, u, External(Some(LATE_RESET)), FiveHour)
  {
    var a, b := Gemini(None), External(Some(LATE_RESET));
    assert LateProvider() == Provider([a] + [b]);
    hide *;
    SpentForms(None);
    SpentForms(Some(LATE_RESET));
    LateBlocked();
    TwoSpent(a, b);
    PairWaits(LatePresenter(), a, b);
  }

  lemma LatePools()
    ensures var p, u := LatePresenter(), LateProvider();
            var g, e := PoolOf(p, u, u.windows, GEM), PoolOf(p, u, u.windows, EXT);
            !Due(p, g) && Due(p, e) && Recovery(p, g) < Recovery(p, e)
  {
    LateWaits();
    hide NotchWindowTag, PoolOf, BlockingSnapshot, GEM_KEY, EXT_KEY, LATE_RESET;
  }

  /** The card says locked while an anchored reset has passed. */
  lemma LockedAfterDistantFuture()
    ensures var p, u := LatePresenter(), LateProvider();
            |PoolsOf(p, u)| >= 2 && Q.QuotaState(p, u).mode == Locked && DocumentedMode(p, u) == Recovering
  {
    var p, u := LatePresenter(), LateProvider();
    LateBlocked();
    LatePools();
    assert u.status == "ok";
    hide LatePresenter, LateProvider, Spent, Due, Recovery, NoUsableCredits, PoolsOf, PoolOf;
    assert u.(windows := u.windows) == u && Reorders(u.windows, u);
    NoCreditsInAnyOrder(u, u.windows);
    SplitModeOf(p, u);
    hide HasCredits, Q.QuotaState;
    assert Due(p, PoolOf(p, u, u.windows, EXT));
  }

  /** A blocked split card's mode, by its two pools. */
  lemma SplitModeOf(p: Presenter, u: ProviderUsage)
    requires |PoolsOf(p, u)| >= 2 && u.status == "ok" && Spent(u, GEM) && Spent(u, EXT) && !HasCredits(u)
    ensures var g, e := PoolOf(p, u, u.windows, GEM), PoolOf(p, u, u.windows, EXT);
            Q.QuotaState(p, u).mode
            == if Due(p, if Recovery(p, e) < Recovery(p, g) then e else g) then Recovering else Locked
  {
    var g, e := PoolOf(p, u, u.windows, GEM), PoolOf(p, u, u.windows, EXT);
    SplitFields(p, u);
    BlockedMeansSpent(p, u, GEM);
    BlockedMeansSpent(p, u, EXT);
    TwoPoolMode(p, u, g, e);
    assert SplitState(p, u, [g, e]).mode == SplitMode(p, u, [g, e]);
    hide *;
  }

  // ------------------------------------------------------------- a tie shows

  const RESET := "2026-01-01T00:00:00Z"

  /** GEM has two windows tied at nothing left, and only one of them is due. */
  function UndueFirst(): seq<QuotaWindow> { [Gemini(None)] + [Gemini(Some(RESET)), External(None)] }

  function DueFirst(): seq<QuotaWindow> { [Gemini(Some(RESET))] + [Gemini(None), External(None)] }

  /** Long before the year 4001; every timestamp reads as a minute ago. */
  function TodayPresenter(): Presenter {
    Presenter(1767225660.0, text => Some(1767225600.0))
  }

  lemma TiedBlocked(a: Option<string>, b: Option<string>)
    ensures var p, u := TodayPresenter(), Provider([Gemini(a)] + [Gemini(b), External(None)]);
            Blocked2(p, u) && !WeeklySpent(u, GEM) && !WeeklySpent(u, EXT)
  {
    var p, ws := TodayPresenter(), [Gemini(a)] + [Gemini(b), External(None)];
    assert ws[0] == Gemini(a) && ws[2] == External(None);
    hide Gemini, External, IsSpent, PoolsOf, Spent, NoUsableCredits, WeeklySpent, Counts;
    SpentForms(a);
    SpentForms(b);
    SpentForms(None);
    ThreeSpent(Gemini(a), Gemini(b), External(None));
    hide AllSpent;
    SpentProvider(p, ws, a, None);
  }

  lemma TiedDue(a: Option<string>, u: ProviderUsage)
    requires u.fetchedAt == None
    ensures WindowDue(TodayPresenter(), u, Gemini(a)) <==> a.Some?
    ensures !WindowDue(TodayPresenter(), u, External(None))
  {
    hide GEM_KEY, EXT_KEY;
  }

  /** GEM waits for the first of its two windows. */
  lemma GemPick(p: Presenter, x: QuotaWindow, y: QuotaWindow, z: QuotaWindow)
    requires AllSpent([x] + [y, z]) && !WeeklySpent(Provider([x] + [y, z]), GEM) && Counts(x, FiveHour, Some(GEM))
    ensures var u := Provider([x] + [y, z]);
            AwaitingReset(p, Pick(p, u, BlockKind(u, GEM), Some(GEM))) <==> WindowDue(p, u, x)
  {
    assert NoneOf([], GEM);
    hide *;
    assert [x] + [y, z] == [] + [x] + [y, z];
    FirstWaits(p, [x] + [y, z], [], x, [y, z], GEM);
  }

  lemma ExtPick(p: Presenter, x: QuotaWindow, y: QuotaWindow, z: QuotaWindow)
    requires AllSpent([x] + [y, z]) && !WeeklySpent(Provider([x] + [y, z]), EXT) && Counts(z, FiveHour, Some(EXT))
    requires NoneOf([x, y], EXT)
    ensures var u := Provider([x] + [y, z]);
            AwaitingReset(p, Pick(p, u, BlockKind(u, EXT), Some(EXT))) <==> WindowDue(p, u, z)
  {
    hide *;
    assert [x] + [y, z] == [x, y] + [z] + [];
    FirstWaits(p, [x] + [y, z], [x, y], z, [], EXT);
  }

  /** The mode when `a` comes before `b`. */
  lemma TiedMode(a: Option<string>, b: Option<string>)
    ensures var p, u := TodayPresenter(), Provider([Gemini(a)] + [Gemini(b), External(None)]);
            Q.QuotaState(p, u).mode == if a.Some? then Recovering else Locked
  {
    var p, x, y, z := TodayPresenter(), Gemini(a), Gemini(b), External(None);
    var u := Provider([x] + [y, z]);
    assert u.fetchedAt == None;
    hide *;
    TiedBlocked(a, b);
    TiedDue(a, u);
    SpentForms(a);
    SpentForms(b);
    SpentForms(None);
    ThreeSpent(x, y, z);
    GemPick(p, x, y, z);
    ExtPick(p, x, y, z);
    ModeOfPicks(p, u);
  }

  lemma ModeOfPicks(p: Presenter, u: ProviderUsage)
    requires Blocked2(p, u)
    ensures var g := Pick(p, u, BlockKind(u, GEM), Some(GEM));
            var e := Pick(p, u, BlockKind(u, EXT), Some(EXT));
            Q.QuotaState(p, u).mode == if AwaitingReset(p, g) || AwaitingReset(p, e) then Recovering else Locked
  {
    assert u.(windows := u.windows) == u;
    assert Reorders(u.windows, u) && ModeIn(p, u, u.windows) == Q.QuotaState(p, u).mode;
    hide *;
    ModeByPicks(p, u, u.windows);
  }

  /** Swapping the two GEM windows leaves every face alone and turns a locked card
      into a recovering one. */
  lemma SwappingTiedWindowsChangesTheMode()
    ensures multiset(UndueFirst()) == multiset(DueFirst())
    ensures var p, u, v := TodayPresenter(), Provider(UndueFirst()), Provider(DueFirst());
            && Faces(PoolsOf(p, u)) == Faces(PoolsOf(p, v))
            && Q.QuotaState(p, u).mode == Locked && Q.QuotaState(p, v).mode == Recovering
  {
    var p, u, ws := TodayPresenter(), Provider(UndueFirst()), DueFirst();
    assert multiset(UndueFirst()) == multiset(ws);
    assert u.(windows := ws) == Provider(ws);
    assert Reorders(ws, u) && u.windows == UndueFirst();
    assert UndueFirst() == [Gemini(None)] + [Gemini(Some(RESET)), External(None)];
    assert ws == [Gemini(Some(RESET))] + [Gemini(None), External(None)];
    hide *;
    SameMembers(ws, u);
    TiedMode(None, Some(RESET));
    TiedMode(Some(RESET), None);
    PoolsIgnoreWindowOrder(p, u, ws);
  }
}
