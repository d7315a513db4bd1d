/** The adaptive refresh machine of the desktop app: activity detection, the
    60-second throttle, the back-off, and the forced-provider set. Each block run
    on the main queue is one step. */
module Polling {
  import opened Wrappers
  import opened QuotaWindows
  import QS = QuotaState

  const DEFAULT_INTERVAL: real := 60.0
  const MAX_INTERVAL: real := 600.0

  datatype Mtimes = Mtimes(
    claude: Option<real>,
    claudeCode: Option<real>,
    localAgent: Option<real>,
    codex: Option<real>)

  datatype State = State(
    active: bool,
    interval: real,
    pending: bool,
    forced: set<string>,
    lastRefresh: real,
    cached: seq<ProviderUsage>,
    mtimes: Mtimes
  )

  /** One processed monitor tick: the clock when it starts, the clock when a
      refresh is recorded, what the background scan found, and the providers the
      cache file decodes to (`None` when it is missing or unreadable). */
  datatype Tick = Tick(now: real, stamp: real, found: Mtimes, focus: bool, cache: Option<seq<ProviderUsage>>)

  datatype Event =
    | Ticks(tick: Tick)
    | Screen(active: bool, stamp: real, cache: Option<seq<ProviderUsage>>)
    | SeedMtimes(found: Mtimes)
    | SlowPoll

  datatype Driver = ByTick | ByWake | BySlowPoll

  datatype Call = Call(driver: Driver, forced: set<string>)

  type Parser = string -> Option<real>

  // ------------------------------------------------------- usage comparison

  predicate SameWindow(a: QuotaWindow, b: QuotaWindow) {
    a.usedPercent == b.usedPercent && a.remaining == b.remaining && a.total == b.total
  }

  predicate SameProvider(a: ProviderUsage, b: ProviderUsage) {
    && a.provider == b.provider && a.status == b.status && a.resets == b.resets
    && |a.windows| == |b.windows|
    && forall j | 0 <= j < |a.windows| :: SameWindow(a.windows[j], b.windows[j])
  }

  predicate SameUsage(before: seq<ProviderUsage>, after: seq<ProviderUsage>) {
    |before| == |after| && forall i | 0 <= i < |before| :: SameProvider(before[i], after[i])
  }

  method HasUsageChanged(before: seq<ProviderUsage>, after: seq<ProviderUsage>) returns (changed: bool)
    ensures changed <==> !SameUsage(before, after)
  {
    if |before| != |after| { return true; }
    for i := 0 to |before|
      invariant forall k | 0 <= k < i :: SameProvider(before[k], after[k])
    {
      var oldP, newP := before[i], after[i];
      if oldP.provider != newP.provider { return true; }
      if oldP.status != newP.status { return true; }
      if |oldP.windows| != |newP.windows| { return true; }
      if oldP.resets != newP.resets { return true; }
      for j := 0 to |oldP.windows|
        invariant forall k | 0 <= k < j :: SameWindow(oldP.windows[k], newP.windows[k])
      {
        var oldW, newW := oldP.windows[j], newP.windows[j];
        if oldW.usedPercent != newW.usedPercent || oldW.remaining != newW.remaining || oldW.total != newW.total {
          assert !SameWindow(oldP.windows[j], newP.windows[j]);
          return true;
        }
      }
    }
    return false;
  }

  // --------------------------------------------------------------- the steps

  predicate Newer(last: Option<real>, cur: Option<real>) {
    cur.Some? && last.Some? && cur.value > last.value
  }

  function Keep(last: Option<real>, cur: Option<real>): Option<real> {
    if cur.Some? then cur else last
  }

  /** Each time found replaces the one remembered. */
  function Kept(last: Mtimes, found: Mtimes): Mtimes {
    Mtimes(Keep(last.claude, found.claude), Keep(last.claudeCode, found.claudeCode),
           Keep(last.localAgent, found.localAgent), Keep(last.codex, found.codex))
  }

  predicate ClaudeActivity(last: Mtimes, found: Mtimes) {
    || Newer(last.claude, found.claude)
    || Newer(last.claudeCode, found.claudeCode)
    || Newer(last.localAgent, found.localAgent)
  }

  predicate CodexActivity(last: Mtimes, found: Mtimes) {
    Newer(last.codex, found.codex)
  }

  predicate Recovering(parse: Parser, now: real, u: ProviderUsage) {
    u.status == "ok" && QS.QuotaState(Presenter(now, parse), u).mode == QS.Recovering
  }

  function RecoveringNames(parse: Parser, now: real, us: seq<ProviderUsage>): set<string> {
    if us == [] then {}
    else
      RecoveringNames(parse, now, us[..|us| - 1])
      + if Recovering(parse, now, us[|us| - 1]) then {us[|us| - 1].provider} else {}
  }

  function ActiveNames(last: Mtimes, t: Tick): set<string> {
    (if ClaudeActivity(last, t.found) || t.focus then {"claude"} else {})
    + (if CodexActivity(last, t.found) then {"codex"} else {})
  }

  /** The providers this tick asks to force. */
  function Wanted(s: State, parse: Parser, t: Tick): set<string> {
    ActiveNames(s.mtimes, t) + RecoveringNames(parse, t.now, s.cached)
  }

  /** The state after activity and recovery were noted, before deciding. */
  function Marked(s: State, parse: Parser, t: Tick): State {
    var wanted := Wanted(s, parse, t);
    var m := Kept(s.mtimes, t.found);
    if wanted == {} then s.(mtimes := m)
    else s.(mtimes := m, forced := s.forced + wanted, interval := DEFAULT_INTERVAL, pending := true)
  }

  /** The two-branch decision of the source. */
  predicate ShouldRefresh(m: State, now: real) {
    if m.pending then now - m.lastRefresh >= DEFAULT_INTERVAL else now - m.lastRefresh >= m.interval
  }

  function BackedOff(interval: real): real {
    if interval * 1.5 < MAX_INTERVAL then interval * 1.5 else MAX_INTERVAL
  }

  function Adjusted(s: State, cache: Option<seq<ProviderUsage>>): State {
    if cache.None? then s
    else if s.cached == [] then s.(cached := cache.value, interval := DEFAULT_INTERVAL)
    else s.(cached := cache.value,
            interval := if SameUsage(s.cached, cache.value) then BackedOff(s.interval) else DEFAULT_INTERVAL)
  }

  function AfterTick(s: State, parse: Parser, t: Tick): State {
    var m := Marked(s, parse, t);
    if ShouldRefresh(m, t.now)
    then Adjusted(m.(pending := false, forced := {}, lastRefresh := t.stamp), t.cache)
    else m
  }

  function TickCall(s: State, parse: Parser, t: Tick): Option<Call> {
    var m := Marked(s, parse, t);
    if ShouldRefresh(m, t.now) then Some(Call(ByTick, m.forced)) else None
  }

  function AfterScreen(s: State, active: bool, stamp: real, cache: Option<seq<ProviderUsage>>): State {
    if s.active == active then s
    else if !active then s.(active := false)
    else s.(active := true, interval := DEFAULT_INTERVAL, pending := false, lastRefresh := stamp,
            cached := if cache.Some? then cache.value else s.cached)
  }

  function Next(s: State, parse: Parser, e: Event): State {
    match e
    case Ticks(t) => AfterTick(s, parse, t)
    case Screen(active, stamp, cache) => AfterScreen(s, active, stamp, cache)
    case SeedMtimes(found) => s.(mtimes := found)
    case SlowPoll => s
  }

  function Exec(s: State, parse: Parser, events: seq<Event>): State
    decreases |events|
  {
    if events == [] then s else Exec(Next(s, parse, events[0]), parse, events[1..])
  }

  function Initial(): State {
    State(true, DEFAULT_INTERVAL, false, {}, 0.0, [], Mtimes(None, None, None, None))
  }

  lemma RecoveringSoFar(parse: Parser, now: real, us: seq<ProviderUsage>, i: nat)
    requires i < |us|
    ensures RecoveringNames(parse, now, us[..i + 1])
            == RecoveringNames(parse, now, us[..i]) + if Recovering(parse, now, us[i]) then {us[i].provider} else {}
  {
    hide Recovering;
    assert us[..i + 1][..i] == us[..i];
  }

  // -------------------------------------------------------- the app's object

  class RefreshMonitor {
    const parse: Parser
    var isScreenActive: bool
    var currentInterval: real
    var isPendingRefresh: bool
    var pendingForceProviders: set<string>
    var lastRefreshTime: real
    var lastCachedProviders: seq<ProviderUsage>
    var lastMtimes: Mtimes
    var calls: seq<Call>

    constructor (parse: Parser)
      ensures this.parse == parse && View() == Initial() && calls == []
      ensures View() == State(true, 60.0, false, {}, 0.0, [], Mtimes(None, None, None, None))
    {
      this.parse := parse;
      isScreenActive, currentInterval, isPendingRefresh := true, DEFAULT_INTERVAL, false;
      pendingForceProviders, lastRefreshTime, lastCachedProviders := {}, 0.0, [];
      lastMtimes := Mtimes(None, None, None, None);
      calls := [];
    }

    function View(): State
      reads this
    {
      State(isScreenActive, currentInterval, isPendingRefresh, pendingForceProviders, lastRefreshTime,
            lastCachedProviders, lastMtimes)
    }

    method AdjustIntervalBasedOnDataChange(cache: Option<seq<ProviderUsage>>)
      modifies this`lastCachedProviders, this`currentInterval
      ensures View() == Adjusted(old(View()), cache)
    {
      if cache.None? { return; }
      var newProviders := cache.value;
      if lastCachedProviders == [] {
        lastCachedProviders := newProviders;
        currentInterval := DEFAULT_INTERVAL;
        return;
      }
      var changed := HasUsageChanged(lastCachedProviders, newProviders);
      if changed {
        currentInterval := DEFAULT_INTERVAL;
      } else {
        currentInterval := BackedOff(currentInterval);
      }
      lastCachedProviders := newProviders;
    }

    /** The four modification-time checks; returns which side was active. */
    method NoteFileActivity(found: Mtimes) returns (claude: bool, codex: bool)
      modifies this`lastMtimes
      ensures claude == ClaudeActivity(old(lastMtimes), found) && codex == CodexActivity(old(lastMtimes), found)
      ensures lastMtimes == Kept(old(lastMtimes), found)
    {
      claude, codex := false, false;
      if found.claude.Some? {
        if Newer(lastMtimes.claude, found.claude) { claude := true; }
        lastMtimes := lastMtimes.(claude := found.claude);
      }
      if found.claudeCode.Some? {
        if Newer(lastMtimes.claudeCode, found.claudeCode) { claude := true; }
        lastMtimes := lastMtimes.(claudeCode := found.claudeCode);
      }
      if found.localAgent.Some? {
        if Newer(lastMtimes.localAgent, found.localAgent) { claude := true; }
        lastMtimes := lastMtimes.(localAgent := found.localAgent);
      }
      if found.codex.Some? {
        if Newer(lastMtimes.codex, found.codex) { codex := true; }
        lastMtimes := lastMtimes.(codex := found.codex);
      }
    }

    /** Step 1 of a tick: note file and focus activity. */
    method MarkActivity(t: Tick)
      modifies this`lastMtimes, this`pendingForceProviders, this`currentInterval, this`isPendingRefresh
      ensures var names := ActiveNames(old(lastMtimes), t);
              && pendingForceProviders == old(pendingForceProviders) + names
              && currentInterval == (if names == {} then old(currentInterval) else DEFAULT_INTERVAL)
              && isPendingRefresh == (names != {} || old(isPendingRefresh))
      ensures lastMtimes == Kept(old(lastMtimes), t.found)
    {
      var claudeActivity, codexActivity := NoteFileActivity(t.found);
      if claudeActivity || codexActivity || t.focus {
        if claudeActivity || t.focus {
          pendingForceProviders := pendingForceProviders + {"claude"};
        }
        if codexActivity {
          pendingForceProviders := pendingForceProviders + {"codex"};
        }
        currentInterval := DEFAULT_INTERVAL;
        isPendingRefresh := true;
      }
    }

    /** Step 1b: force every provider whose predicted reset has passed. */
    method MarkRecovering(now: real)
      modifies this`pendingForceProviders, this`currentInterval, this`isPendingRefresh
      ensures var names := RecoveringNames(parse, now, lastCachedProviders);
              && pendingForceProviders == old(pendingForceProviders) + names
              && currentInterval == (if names == {} then old(currentInterval) else DEFAULT_INTERVAL)
              && isPendingRefresh == (names != {} || old(isPendingRefresh))
    {
      for i := 0 to |lastCachedProviders|
        invariant unchanged(`lastCachedProviders)
        invariant var names := RecoveringNames(parse, now, lastCachedProviders[..i]);
                  && pendingForceProviders == old(pendingForceProviders) + names
                  && currentInterval == (if names == {} then old(currentInterval) else DEFAULT_INTERVAL)
                  && isPendingRefresh == (names != {} || old(isPendingRefresh))
      {
        hide Recovering;
        var provider := lastCachedProviders[i];
        RecoveringSoFar(parse, now, lastCachedProviders, i);
        hide RecoveringNames;
        if Recovering(parse, now, provider) {
          pendingForceProviders := pendingForceProviders + {provider.provider};
          currentInterval := DEFAULT_INTERVAL;
          isPendingRefresh := true;
        }
      }
      assert lastCachedProviders[..|lastCachedProviders|] == lastCachedProviders;
    }

    method Mark(t: Tick)
      modifies this`lastMtimes, this`pendingForceProviders, this`currentInterval, this`isPendingRefresh
      ensures View() == Marked(old(View()), parse, t)
    {
      MarkActivity(t);
      MarkRecovering(t.now);
      hide ActiveNames, RecoveringNames;
    }

    method ProcessMonitorTick(t: Tick)
      modifies this
      ensures View() == AfterTick(old(View()), parse, t)
      ensures var call := TickCall(old(View()), parse, t);
              calls == if call.Some? then old(calls) + [call.value] else old(calls)
    {
      var timeSinceLastRefresh := t.now - lastRefreshTime;
      Mark(t);
      hide Marked, Adjusted;
      var shouldRefresh := false;
      if isPendingRefresh {
        if timeSinceLastRefresh >= DEFAULT_INTERVAL {
          shouldRefresh := true;
          isPendingRefresh := false;
        }
      } else {
        if timeSinceLastRefresh >= currentInterval {
          shouldRefresh := true;
        }
      }
      if shouldRefresh {
        calls := calls + [Call(ByTick, pendingForceProviders)];
        pendingForceProviders := {};
        lastRefreshTime := t.stamp;
        AdjustIntervalBasedOnDataChange(t.cache);
      }
    }

    method SetScreenActive(active: bool, stamp: real, cache: Option<seq<ProviderUsage>>)
      modifies this
      ensures View() == AfterScreen(old(View()), active, stamp, cache)
      ensures calls == if active && !old(isScreenActive) then old(calls) + [Call(ByWake, {})] else old(calls)
    {
      if isScreenActive == active { return; }
      isScreenActive := active;
      if active {
        currentInterval := DEFAULT_INTERVAL;
        isPendingRefresh := false;
        calls := calls + [Call(ByWake, {})];
        lastRefreshTime := stamp;
        if cache.Some? {
          lastCachedProviders := cache.value;
        }
      }
    }
  }

  // -------------------------------------------------------------- invariants

  /** The interval stays in range, and anything waiting pins it to 60 s. */
  predicate Inv(s: State) {
    && DEFAULT_INTERVAL <= s.interval <= MAX_INTERVAL
    && (s.pending || s.forced != {} ==> s.interval == DEFAULT_INTERVAL)
  }

  lemma MarkedKeepsInv(s: State, parse: Parser, t: Tick)
    requires Inv(s)
    ensures Inv(Marked(s, parse, t))
    ensures Marked(s, parse, t).lastRefresh == s.lastRefresh
    ensures s.forced + Wanted(s, parse, t) == Marked(s, parse, t).forced
  {
    hide Wanted;
  }

  lemma StepKeepsInv(s: State, parse: Parser, e: Event)
    requires Inv(s)
    ensures Inv(Next(s, parse, e))
  {
    if e.Ticks? {
      MarkedKeepsInv(s, parse, e.tick);
    }
    hide Marked, SameUsage;
  }

  lemma {:induction false} RunKeepsInv(s: State, parse: Parser, events: seq<Event>)
    requires Inv(s)
    ensures Inv(Exec(s, parse, events))
    decreases |events|
  {
    if events != [] {
      StepKeepsInv(s, parse, events[0]);
      RunKeepsInv(Next(s, parse, events[0]), parse, events[1..]);
    }
    hide Next;
  }

  /** In every reachable state the two-branch throttle is the single test
      "elapsed time is at least the current interval". */
  lemma ThrottleIsOneTest(parse: Parser, events: seq<Event>, t: Tick)
    ensures var s := Exec(Initial(), parse, events);
            var m := Marked(s, parse, t);
            && (TickCall(s, parse, t).Some? <==> t.now - s.lastRefresh >= m.interval)
            && (s.pending || s.forced != {} ==> s.interval == DEFAULT_INTERVAL)
            && DEFAULT_INTERVAL <= s.interval <= MAX_INTERVAL
  {
    RunKeepsInv(Initial(), parse, events);
    MarkedKeepsInv(Exec(Initial(), parse, events), parse, t);
    hide Marked, Exec;
  }

  // --------------------------------------------- forced providers, spacing

  /** The first tick-driven refresh of a run. */
  function FirstTickCall(s: State, parse: Parser, events: seq<Event>): Option<Call>
    decreases |events|
  {
    if events == [] then None
    else if events[0].Ticks? && TickCall(s, parse, events[0].tick).Some? then TickCall(s, parse, events[0].tick)
    else FirstTickCall(Next(s, parse, events[0]), parse, events[1..])
  }

  lemma StepKeepsForced(s: State, parse: Parser, e: Event, x: string)
    requires x in s.forced
    ensures if e.Ticks? && TickCall(s, parse, e.tick).Some? then x in TickCall(s, parse, e.tick).value.forced
            else x in Next(s, parse, e).forced
  {
    hide Wanted;
  }

  /** A forced provider waits through ticks, sleeps and wakes until the first
      tick-driven refresh, which carries it. */
  lemma {:induction false} ForcedProvidersAreConserved(s: State, parse: Parser, events: seq<Event>, x: string)
    requires x in s.forced
    ensures var first := FirstTickCall(s, parse, events);
            if first.Some? then x in first.value.forced else x in Exec(s, parse, events).forced
    decreases |events|
  {
    if events != [] {
      StepKeepsForced(s, parse, events[0], x);
      if !(events[0].Ticks? && TickCall(s, parse, events[0].tick).Some?) {
        ForcedProvidersAreConserved(Next(s, parse, events[0]), parse, events[1..], x);
      }
    }
    hide Next, TickCall;
  }

  /** In a reachable state, a tick that finds anything to force, now or left over,
      refreshes as soon as 60 s have passed since the last recorded refresh, and
      hands every such provider over. */
  lemma ForcedProvidersGoOutInTime(parse: Parser, events: seq<Event>, t: Tick, x: string)
    ensures var s := Exec(Initial(), parse, events);
            x in s.forced + Wanted(s, parse, t) && t.now - s.lastRefresh >= DEFAULT_INTERVAL ==>
              && TickCall(s, parse, t).Some? && x in TickCall(s, parse, t).value.forced
              && AfterTick(s, parse, t).forced == {}
  {
    RunKeepsInv(Initial(), parse, events);
    MarkedKeepsInv(Exec(Initial(), parse, events), parse, t);
    hide Marked, Exec, Wanted, SameUsage;
  }

  /** When the latest tick- or wake-driven refresh of a run was recorded. */
  function LastStamp(s: State, parse: Parser, events: seq<Event>): real
    decreases |events|
  {
    if events == [] then s.lastRefresh
    else
      var front, e := events[..|events| - 1], events[|events| - 1];
      var before := Exec(s, parse, front);
      match e
      case Ticks(t) => if TickCall(before, parse, t).Some? then t.stamp else LastStamp(s, parse, front)
      case Screen(active, stamp, _) => if active && !before.active then stamp else LastStamp(s, parse, front)
      case _ => LastStamp(s, parse, front)
  }

  lemma {:induction false} ExecSnoc(s: State, parse: Parser, events: seq<Event>, e: Event)
    ensures Exec(s, parse, events + [e]) == Next(Exec(s, parse, events), parse, e)
    decreases |events|
  {
    hide Next;
    if events == [] {
      assert [e][1..] == [];
      assert [] + [e] == [e];
      assert Exec(Next(s, parse, e), parse, []) == Next(s, parse, e);
    } else {
      assert (events + [e])[0] == events[0] && (events + [e])[1..] == events[1..] + [e];
      ExecSnoc(Next(s, parse, events[0]), parse, events[1..], e);
    }
  }

  lemma {:induction false} LastRefreshIsLastStamp(s: State, parse: Parser, events: seq<Event>)
    ensures Exec(s, parse, events).lastRefresh == LastStamp(s, parse, events)
    decreases |events|
  {
    if events != [] {
      var front, e := events[..|events| - 1], events[|events| - 1];
      LastRefreshIsLastStamp(s, parse, front);
      assert events == front + [e];
      ExecSnoc(s, parse, front, e);
    }
    hide Exec, SameUsage, ShouldRefresh, Wanted;
  }

  /** No tick-driven refresh is decided less than 60 s after the latest recorded
      tick- or wake-driven one. */
  lemma RefreshesAreSpaced(parse: Parser, events: seq<Event>, t: Tick)
    ensures TickCall(Exec(Initial(), parse, events), parse, t).Some? ==>
            t.now - LastStamp(Initial(), parse, events) >= DEFAULT_INTERVAL
  {
    RunKeepsInv(Initial(), parse, events);
    MarkedKeepsInv(Exec(Initial(), parse, events), parse, t);
    LastRefreshIsLastStamp(Initial(), parse, events);
    hide Marked, Exec, LastStamp;
  }

  // ---------------------------------------------------------------- back-off

  function Pow(base: real, k: nat): real {
    if k == 0 then 1.0 else base * Pow(base, k - 1)
  }

  function Capped(x: real): real {
    if x < 600.0 then x else 600.0
  }

  /** min(600, 60 * 1.5^k) seconds. */
  function IntervalAfter(k: nat): real {
    Capped(60.0 * Pow(1.5, k))
  }

  /** A tick with nothing new: no activity, no overdue reset, and a readable
      cache equal in usage to the one last seen. */
  predicate Quiet(s: State, parse: Parser, t: Tick) {
    && Wanted(s, parse, t) == {}
    && s.cached != [] && t.cache.Some? && SameUsage(s.cached, t.cache.value)
  }

  predicate QuietRun(s: State, parse: Parser, ticks: seq<Tick>)
    decreases |ticks|
  {
    ticks == [] || (Quiet(s, parse, ticks[0]) && QuietRun(AfterTick(s, parse, ticks[0]), parse, ticks[1..]))
  }

  function AfterTicks(s: State, parse: Parser, ticks: seq<Tick>): State
    decreases |ticks|
  {
    if ticks == [] then s else AfterTicks(AfterTick(s, parse, ticks[0]), parse, ticks[1..])
  }

  function Refreshes(s: State, parse: Parser, ticks: seq<Tick>): nat
    decreases |ticks|
  {
    if ticks == [] then 0
    else
      (if TickCall(s, parse, ticks[0]).Some? then 1 else 0)
      + Refreshes(AfterTick(s, parse, ticks[0]), parse, ticks[1..])
  }

  lemma {:induction false} PowAtLeastOne(k: nat)
    ensures Pow(1.5, k) >= 1.0
  {
    if k > 0 {
      PowAtLeastOne(k - 1);
    }
  }

  /** One more back-off is one more factor, under the cap. */
  lemma BackedOffCapped(k: nat)
    ensures BackedOff(IntervalAfter(k)) == IntervalAfter(k + 1)
  {
    PowAtLeastOne(k);
    assert 60.0 * Pow(1.5, k + 1) == 60.0 * Pow(1.5, k) * 1.5;
  }

  lemma QuietTick(s: State, parse: Parser, t: Tick)
    requires Quiet(s, parse, t) && !s.pending && s.forced == {}
    ensures var s' := AfterTick(s, parse, t);
            && !s'.pending && s'.forced == {}
            && s'.interval == if TickCall(s, parse, t).Some? then BackedOff(s.interval) else s.interval
  {
    hide Wanted, SameUsage;
  }

  lemma TicksHead(s: State, parse: Parser, ticks: seq<Tick>)
    requires ticks != []
    ensures var next, rest := AfterTick(s, parse, ticks[0]), ticks[1..];
            && (QuietRun(s, parse, ticks) <==> Quiet(s, parse, ticks[0]) && QuietRun(next, parse, rest))
            && AfterTicks(s, parse, ticks) == AfterTicks(next, parse, rest)
            && Refreshes(s, parse, ticks)
               == (if TickCall(s, parse, ticks[0]).Some? then 1 else 0) + Refreshes(next, parse, rest)
  {
    hide AfterTick, TickCall, Quiet;
  }

  /** The back-off law: after k refreshes without news from a 60-second interval,
      the interval is min(600, 60 * 1.5^k), however many ticks went by. */
  lemma {:induction false} BackOffLaw(s: State, parse: Parser, ticks: seq<Tick>, done: nat)
    requires QuietRun(s, parse, ticks) && !s.pending && s.forced == {}
    requires s.interval == IntervalAfter(done)
    ensures AfterTicks(s, parse, ticks).interval == IntervalAfter(done + Refreshes(s, parse, ticks))
    decreases |ticks|
  {
    if ticks != [] {
      TicksHead(s, parse, ticks);
      hide *;
      QuietTick(s, parse, ticks[0]);
      BackedOffCapped(done);
      var called := TickCall(s, parse, ticks[0]).Some?;
      BackOffLaw(AfterTick(s, parse, ticks[0]), parse, ticks[1..], if called then done + 1 else done);
    }
  }
}
