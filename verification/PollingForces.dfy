/** What a tick of the refresh monitor does, told from the times it found and the
    times remembered: which providers it asks to refresh, when it refreshes, and what
    it remembers. */
module PollingForces {
  import opened Wrappers
  import opened QuotaWindows
  import Q = QuotaState
  import opened Polling

  /** The provider that reported `x` waits for a reset that has passed. */
  predicate Overdue(s: State, parse: Parser, now: real, x: string) {
    exists u | u in s.cached ::
      u.provider == x && u.status == "ok" && Q.QuotaState(Presenter(now, parse), u).mode == Q.Mode.Recovering
  }

  /** What a tick asks to refresh: Claude for focus or any of its three times found
      later than remembered, Codex for its own, and whoever is overdue. */
  predicate Asked(s: State, parse: Parser, t: Tick, x: string) {
    || (x == "claude" &&
         (|| t.focus
          || (t.found.claude.Some? && s.mtimes.claude.Some? && s.mtimes.claude.value < t.found.claude.value)
          || (t.found.claudeCode.Some? && s.mtimes.claudeCode.Some?
              && s.mtimes.claudeCode.value < t.found.claudeCode.value)
          || (t.found.localAgent.Some? && s.mtimes.localAgent.Some?
              && s.mtimes.localAgent.value < t.found.localAgent.value)))
    || (x == "codex" && t.found.codex.Some? && s.mtimes.codex.Some? && s.mtimes.codex.value < t.found.codex.value)
    || Overdue(s, parse, t.now, x)
  }

  lemma {:induction false} RecoveringNamesAre(s: State, parse: Parser, now: real, us: seq<ProviderUsage>, x: string)
    ensures x in RecoveringNames(parse, now, us) <==> exists u | u in us :: u.provider == x && Recovering(parse, now, u)
  {
    hide Recovering;
    if us != [] {
      var front, last := us[..|us| - 1], us[|us| - 1];
      RecoveringNamesAre(s, parse, now, front, x);
      assert us == front + [last];
    }
  }

  lemma WantedIsAsked(s: State, parse: Parser, t: Tick, x: string)
    ensures x in Wanted(s, parse, t) <==> Asked(s, parse, t, x)
  {
    RecoveringNamesAre(s, parse, t.now, s.cached, x);
    hide RecoveringNames, Q.QuotaState;
  }

  /** Whoever a tick of a reachable state asks for, and whoever waited, is handed to the
      refresh it starts, or waits on when it starts none; and no one else is. */
  lemma TickForcesWhatItAsks(parse: Parser, events: seq<Event>, t: Tick, x: string)
    ensures var s := Exec(Initial(), parse, events);
            var call, next := TickCall(s, parse, t), AfterTick(s, parse, t);
            && (x in (if call.Some? then call.value.forced else next.forced) <==>
                x in s.forced || Asked(s, parse, t, x))
            && (call.Some? ==> next.forced == {} && call.value.driver == ByTick)
  {
    var s := Exec(Initial(), parse, events);
    WantedIsAsked(s, parse, t, x);
    hide Exec, Wanted, Asked, SameUsage, ShouldRefresh;
  }

  /** It refreshes once 60 s have passed since the last recorded refresh when anyone is
      asked for or waits, and else once the current interval, 60 to 600 s, has. */
  lemma TickRefreshesInTime(parse: Parser, events: seq<Event>, t: Tick)
    ensures var s := Exec(Initial(), parse, events);
            && 60.0 <= s.interval <= 600.0
            && (TickCall(s, parse, t).Some? <==>
                t.now - s.lastRefresh >=
                if s.pending || s.forced != {} || exists x :: Asked(s, parse, t, x) then 60.0 else s.interval)
  {
    var s := Exec(Initial(), parse, events);
    RunKeepsInv(Initial(), parse, events);
    WantedSomeone(s, parse, t);
    hide Exec, Wanted, Asked;
  }

  lemma WantedSomeone(s: State, parse: Parser, t: Tick)
    ensures Wanted(s, parse, t) == {} <==> !exists x :: Asked(s, parse, t, x)
  {
    forall x ensures x in Wanted(s, parse, t) <==> Asked(s, parse, t, x) {
      WantedIsAsked(s, parse, t, x);
    }
    hide Wanted, Asked;
    if Wanted(s, parse, t) != {} {
      var x :| x in Wanted(s, parse, t);
    }
  }

  // -------------------------------------------------------- what a tick remembers

  /** What is compared of a usage reading. */
  datatype Reading = Reading(
    provider: string, status: string, resets: Option<ResetCredits>, numbers: seq<seq<Option<real>>>)

  function ReadingOf(u: ProviderUsage): Reading {
    Reading(u.provider, u.status, u.resets,
            seq(|u.windows|, j requires 0 <= j < |u.windows| =>
              [u.windows[j].usedPercent, u.windows[j].remaining, u.windows[j].total]))
  }

  function Readings(us: seq<ProviderUsage>): seq<Reading> {
    seq(|us|, i requires 0 <= i < |us| => ReadingOf(us[i]))
  }

  lemma SameProviderSameReading(a: ProviderUsage, b: ProviderUsage)
    ensures SameProvider(a, b) <==> ReadingOf(a) == ReadingOf(b)
  {
    var x, y := ReadingOf(a), ReadingOf(b);
    if x == y {
      forall j | 0 <= j < |a.windows| ensures SameWindow(a.windows[j], b.windows[j]) {
        assert x.numbers[j] == y.numbers[j];
        assert x.numbers[j][0] == y.numbers[j][0] && x.numbers[j][1] == y.numbers[j][1];
        assert x.numbers[j][2] == y.numbers[j][2];
      }
    }
  }

  /** Two lists of providers count as the same exactly when their readings do. */
  lemma SameUsageIsSameReadings(a: seq<ProviderUsage>, b: seq<ProviderUsage>)
    ensures SameUsage(a, b) <==> Readings(a) == Readings(b)
  {
    forall i | 0 <= i < |a| && i < |b| ensures SameProvider(a[i], b[i]) <==> ReadingOf(a[i]) == ReadingOf(b[i]) {
      SameProviderSameReading(a[i], b[i]);
    }
    hide SameProvider, ReadingOf;
    if Readings(a) == Readings(b) {
      assert |Readings(a)| == |Readings(b)|;
      forall i | 0 <= i < |a| ensures SameProvider(a[i], b[i]) {
        assert Readings(a)[i] == Readings(b)[i];
      }
    }
  }

  function Later(found: Option<real>, remembered: Option<real>): Option<real> {
    if found.None? then remembered else found
  }

  /** After a tick each time found is remembered, what the cache held too if it was read,
      and the interval is 60 s after news and half as long again, up to 600 s, without;
      a tick that refreshes nothing only notes who waits. */
  lemma TickRemembers(parse: Parser, events: seq<Event>, t: Tick)
    ensures var s := Exec(Initial(), parse, events);
            var next, called := AfterTick(s, parse, t), TickCall(s, parse, t).Some?;
            var waits := s.pending || exists x :: Asked(s, parse, t, x);
            var base := if waits then 60.0 else s.interval;
            && next.active == s.active
            && next.mtimes == Mtimes(Later(t.found.claude, s.mtimes.claude),
                                     Later(t.found.claudeCode, s.mtimes.claudeCode),
                                     Later(t.found.localAgent, s.mtimes.localAgent),
                                     Later(t.found.codex, s.mtimes.codex))
            && (called ==> next.lastRefresh == t.stamp && !next.pending)
            && (!called ==> next.lastRefresh == s.lastRefresh && next.pending == waits)
            && next.cached == (if called && t.cache.Some? then t.cache.value else s.cached)
            && next.interval ==
               if !called || t.cache.None? then base
               else if s.cached == [] || Readings(s.cached) != Readings(t.cache.value) then 60.0
               else if base * 1.5 < 600.0 then base * 1.5 else 600.0
  {
    var s := Exec(Initial(), parse, events);
    RunKeepsInv(Initial(), parse, events);
    WantedSomeone(s, parse, t);
    if t.cache.Some? {
      SameUsageIsSameReadings(s.cached, t.cache.value);
    }
    hide Exec, Wanted, Asked, SameUsage, Readings;
  }

  /** The screen going off changes the flag alone; coming on, it starts afresh, with the
      forced providers kept; and being told again what it already is changes nothing. */
  lemma ScreenRestartsTheClock(s: State, active: bool, stamp: real, cache: Option<seq<ProviderUsage>>)
    ensures var next := AfterScreen(s, active, stamp, cache);
            && next.active == active && next.forced == s.forced && next.mtimes == s.mtimes
            && AfterScreen(next, active, stamp, cache) == next
            && (s.active || !active ==> next == s.(active := active))
            && (!s.active && active ==>
                  && next.interval == 60.0 && !next.pending && next.lastRefresh == stamp
                  && next.cached == if cache.Some? then cache.value else s.cached)
  {
  }
}
