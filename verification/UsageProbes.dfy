/** Bookkeeping around the usage collector processes: the in-flight counter and
    the panel-triggered Codex refresh that waits for it to reach zero. */
module UsageProbes {
  import opened Wrappers
  import opened QuotaWindows

  datatype Launch = BinaryMissing | Runs | FailsToRun

  /** What a panel refresh looks at: whether Codex is active, its cached entry,
      and whether that entry is older than the refresh age. */
  datatype Panel = Panel(codexActive: bool, codex: Option<ProviderUsage>, stale: bool)

  predicate Needed(w: Panel) {
    w.codexActive && (w.codex.None? || w.codex.value.resets.None? || w.stale)
  }

  datatype Event =
    | OpenPanel(panel: Panel, launch: Launch)
    | OtherRefresh(launch: Launch)
    | ProbeExits                                // the process ends
    | ExitHandled(panel: Panel, launch: Launch) // its handler runs on the main queue

  /** `counter` and `deferred` are the app's fields; the rest is history: processes
      that run, those that ended and wait for their handler, panel openings, and
      panel refreshes made. */
  datatype State = State(
    counter: int,
    deferred: bool,
    running: nat,
    exited: nat,
    openings: nat,
    panelRefreshes: nat)

  function Decrement(counter: int): int {
    if counter - 1 > 0 then counter - 1 else 0
  }

  function RunProbe(s: State, launch: Launch): State {
    match launch
    case BinaryMissing => s
    case Runs => s.(counter := s.counter + 1, running := s.running + 1)
    case FailsToRun => s.(counter := Decrement(s.counter + 1))
  }

  function PanelRefresh(s: State, panel: Panel, launch: Launch): State {
    if !Needed(panel) then s
    else if s.counter > 0 then s.(deferred := true)
    else RunProbe(s.(deferred := false, panelRefreshes := s.panelRefreshes + 1), launch)
  }

  predicate Enabled(s: State, e: Event) {
    && (e.ProbeExits? ==> s.running > 0)
    && (e.ExitHandled? ==> s.exited > 0)
  }

  function Next(s: State, e: Event): State
    requires Enabled(s, e)
  {
    match e
    case OpenPanel(panel, launch) => PanelRefresh(s.(openings := s.openings + 1), panel, launch)
    case OtherRefresh(launch) => RunProbe(s, launch)
    case ProbeExits => s.(running := s.running - 1, exited := s.exited + 1)
    case ExitHandled(panel, launch) =>
      var t := s.(counter := Decrement(s.counter), exited := s.exited - 1);
      if t.counter == 0 && t.deferred then PanelRefresh(t.(deferred := false), panel, launch) else t
  }

  function Exec(s: State, events: seq<Event>): Option<State>
    decreases |events|
  {
    if events == [] then Some(s)
    else if !Enabled(s, events[0]) then None
    else Exec(Next(s, events[0]), events[1..])
  }

  const IDLE := State(0, false, 0, 0, 0, 0)

  class ProbeCounter {
    var usageProbesInFlight: int
    var codexPanelRefreshPending: bool
    ghost var running: nat
    ghost var exited: nat
    ghost var openings: nat
    ghost var panelRefreshes: nat

    constructor ()
      ensures View() == IDLE
    {
      usageProbesInFlight, codexPanelRefreshPending := 0, false;
      running, exited, openings, panelRefreshes := 0, 0, 0, 0;
    }

    ghost function View(): State
      reads this
    {
      State(usageProbesInFlight, codexPanelRefreshPending, running, exited, openings, panelRefreshes)
    }

    method RunUsageProbe(launch: Launch)
      modifies this
      ensures View() == RunProbe(old(View()), launch)
    {
      if launch == BinaryMissing { return; }
      usageProbesInFlight := usageProbesInFlight + 1;
      if launch == Runs {
        running := running + 1;
      } else {
        usageProbesInFlight := if usageProbesInFlight - 1 > 0 then usageProbesInFlight - 1 else 0;
      }
    }

    method RefreshCodexQuotaForPanelIfNeeded(panel: Panel, launch: Launch)
      modifies this
      ensures View() == PanelRefresh(old(View()), panel, launch)
    {
      if !panel.codexActive { return; }
      var missingResets := panel.codex.None? || panel.codex.value.resets.None?;
      if !(panel.codex.None? || missingResets || panel.stale) { return; }
      if usageProbesInFlight > 0 {
        codexPanelRefreshPending := true;
        return;
      }
      codexPanelRefreshPending := false;
      panelRefreshes := panelRefreshes + 1;
      RunUsageProbe(launch);
    }

    method OpenExpandedPanel(panel: Panel, launch: Launch)
      modifies this
      ensures View() == Next(old(View()), OpenPanel(panel, launch))
    {
      openings := openings + 1;
      RefreshCodexQuotaForPanelIfNeeded(panel, launch);
    }

    /** The main-queue part of the termination handler, some time after the exit. */
    method TerminationHandler(panel: Panel, launch: Launch)
      requires exited > 0
      modifies this
      ensures View() == Next(old(View()), ExitHandled(panel, launch))
    {
      exited := exited - 1;
      usageProbesInFlight := if usageProbesInFlight - 1 > 0 then usageProbesInFlight - 1 else 0;
      if usageProbesInFlight == 0 && codexPanelRefreshPending {
        codexPanelRefreshPending := false;
        RefreshCodexQuotaForPanelIfNeeded(panel, launch);
      }
    }
  }

  predicate Inv(s: State) {
    && s.counter == s.running + s.exited
    && (s.deferred ==> s.counter > 0)
    && s.panelRefreshes + (if s.deferred then 1 else 0) <= s.openings
  }

  /** One step keeps the invariant; the clamp never changes the result of the
      decrement it guards; the last handler replays a deferred request that is still
      needed; and a panel refresh starts only when no process runs and no other
      handler is waiting. */
  lemma StepKeepsInv(s: State, e: Event)
    requires Inv(s) && Enabled(s, e)
    ensures Inv(Next(s, e))
    ensures e.ExitHandled? ==> Decrement(s.counter) == s.counter - 1
    ensures e.ExitHandled? && s.running == 0 && s.exited == 1 && s.deferred && Needed(e.panel) ==>
              Next(s, e).panelRefreshes == s.panelRefreshes + 1
    ensures Next(s, e).panelRefreshes > s.panelRefreshes ==>
              s.running == 0 && s.exited == if e.ExitHandled? then 1 else 0
  {
  }

  /** In every run the counter is the number of processes that run or whose exit
      is not yet handled, a deferred refresh has one of those to wait for, and panel
      refreshes made plus the one still deferred never exceed panel openings. */
  lemma {:induction false} EveryRunIsCounted(s: State, events: seq<Event>)
    requires Inv(s) && Exec(s, events).Some?
    ensures Inv(Exec(s, events).value)
    decreases |events|
  {
    if events != [] {
      StepKeepsInv(s, events[0]);
      EveryRunIsCounted(Next(s, events[0]), events[1..]);
    }
    hide Next, Enabled;
  }

  lemma RunsFromIdleAreCounted(events: seq<Event>)
    requires Exec(IDLE, events).Some?
    ensures var t := Exec(IDLE, events).value;
            && t.counter == t.running + t.exited
            && (t.deferred ==> t.running + t.exited > 0)
            && t.panelRefreshes + (if t.deferred then 1 else 0) <= t.openings
  {
    EveryRunIsCounted(IDLE, events);
  }

  /** Codex is active, and its entry is missing, without resets or stale. */
  predicate RefreshNeeded(panel: Panel) {
    panel.codexActive && (panel.codex == None || panel.codex.value.resets == None || panel.stale)
  }

  lemma NeededAgrees(panel: Panel)
    ensures Needed(panel) <==> RefreshNeeded(panel)
  {
  }

  /** Some run from idle ends here. */
  ghost predicate Reachable(s: State) {
    exists events :: Exec(IDLE, events) == Some(s)
  }

  lemma CountedFrom(s: State, events: seq<Event>, t: State)
    requires Inv(s) && Exec(s, events) == Some(t)
    ensures Inv(t)
  {
    EveryRunIsCounted(s, events);
  }

  lemma ReachableIsCounted(t: State)
    requires Reachable(t)
    ensures Inv(t)
  {
    var events :| Exec(IDLE, events) == Some(t);
    CountedFrom(IDLE, events, t);
  }

  /** A launch starts a process or none, and touches no request. */
  lemma LaunchMoves(s: State, launch: Launch)
    ensures var t := RunProbe(s, launch);
            && t.deferred == s.deferred && t.panelRefreshes == s.panelRefreshes
            && t.running == if launch == Runs then s.running + 1 else s.running
  {
  }

  lemma OpeningFrom(s: State, panel: Panel, launch: Launch)
    requires Inv(s)
    ensures var after, inFlight := Next(s, OpenPanel(panel, launch)), s.running + s.exited;
            var starts := RefreshNeeded(panel) && inFlight == 0;
            && after.panelRefreshes == (if starts then s.panelRefreshes + 1 else s.panelRefreshes)
            && after.deferred == (s.deferred || (RefreshNeeded(panel) && inFlight > 0))
            && after.running == if starts && launch == Runs then s.running + 1 else s.running
  {
    NeededAgrees(panel);
    hide Needed, RefreshNeeded;
    var up := s.(openings := s.openings + 1);
    assert Next(s, OpenPanel(panel, launch)) == PanelRefresh(up, panel, launch);
    LaunchMoves(up.(deferred := false, panelRefreshes := s.panelRefreshes + 1), launch);
    hide RunProbe, Next;
  }

  /** What a panel opening makes of a Codex refresh that is needed, in any run: it
      starts at once when nothing is in flight, and else is deferred. */
  lemma OpeningIsDecided(s: State, panel: Panel, launch: Launch)
    requires Reachable(s)
    ensures var after, inFlight := Next(s, OpenPanel(panel, launch)), s.running + s.exited;
            var starts := RefreshNeeded(panel) && inFlight == 0;
            && after.panelRefreshes == (if starts then s.panelRefreshes + 1 else s.panelRefreshes)
            && after.deferred == (s.deferred || (RefreshNeeded(panel) && inFlight > 0))
            && after.running == if starts && launch == Runs then s.running + 1 else s.running
  {
    ReachableIsCounted(s);
    OpeningFrom(s, panel, launch);
  }

  /** And the handler of an exit: the last one replays what was deferred, if it is
      still needed. */
  lemma ReplayIsDecided(s: State, panel: Panel, launch: Launch)
    requires Reachable(s) && s.exited > 0
    ensures var after, last := Next(s, ExitHandled(panel, launch)), s.running + s.exited == 1;
            var replays := last && s.deferred && RefreshNeeded(panel);
            && after.panelRefreshes == (if replays then s.panelRefreshes + 1 else s.panelRefreshes)
            && after.deferred == (!last && s.deferred)
            && after.running == if replays && launch == Runs then s.running + 1 else s.running
  {
    ReachableIsCounted(s);
    NeededAgrees(panel);
    hide Reachable, Needed, RefreshNeeded;
  }
}
