/** The bounded memo of parsed timestamps, shared by concurrent callers: look up
    under the lock, parse outside it, insert under the lock. */
module DateMemo {
  import opened Wrappers

  const CAP: nat := 512

  /** The two formatters; both are pure. */
  datatype Formatters = Formatters(plain: string -> Option<real>, fractional: string -> Option<real>)

  /** What parsing a string yields, memo or not. */
  function PureParse(f: Formatters, s: string): Option<real> {
    if f.plain(s).Some? then f.plain(s) else f.fractional(s)
  }

  type Memo = map<string, Option<real>>

  /** The second lock section: empty a full table, then record the parse. */
  function Record(m: Memo, s: string, parsed: Option<real>): Memo {
    (if |m| >= CAP then map[] else m)[s := parsed]
  }

  predicate Agrees(f: Formatters, m: Memo) {
    |m| <= CAP && forall s | s in m :: m[s] == PureParse(f, s)
  }

  lemma RecordAgrees(f: Formatters, m: Memo, s: string)
    requires Agrees(f, m)
    ensures Agrees(f, Record(m, s, PureParse(f, s)))
  {
  }

  class SharedDateFormatters {
    const formatters: Formatters
    var parsedISOCache: Memo

    constructor (f: Formatters)
      ensures formatters == f && parsedISOCache == map[]
    {
      formatters := f;
      parsedISOCache := map[];
    }

    /** One caller on its own. A hit, also a remembered failure, changes nothing. */
    method ParseISO(s: string) returns (date: Option<real>)
      requires Agrees(formatters, parsedISOCache)
      modifies this
      ensures Agrees(formatters, parsedISOCache)
      ensures date == if formatters.plain(s).Some? then formatters.plain(s) else formatters.fractional(s)
      ensures parsedISOCache ==
              if s in old(parsedISOCache) then old(parsedISOCache)
              else if |old(parsedISOCache)| >= 512 then map[s := date]
              else old(parsedISOCache)[s := date]
    {
      if s in parsedISOCache {
        return parsedISOCache[s];
      }
      date := if formatters.plain(s).Some? then formatters.plain(s) else formatters.fractional(s);
      RecordAgrees(formatters, parsedISOCache, s);
      if |parsedISOCache| >= CAP {
        parsedISOCache := map[];
      }
      parsedISOCache := parsedISOCache[s := date];
    }
  }

  // ----------------------------------------------------- concurrent callers

  datatype Stage = Looking | Parsing | Inserting(parsed: Option<real>) | Returned(value: Option<real>)

  datatype Caller = Caller(input: string, stage: Stage)

  datatype State = State(memo: Memo, callers: seq<Caller>)

  datatype Event = Enter(input: string) | Lookup(i: nat) | Parse(i: nat) | Insert(i: nat)

  predicate Enabled(s: State, e: Event) {
    match e
    case Enter(_) => true
    case Lookup(i) => i < |s.callers| && s.callers[i].stage.Looking?
    case Parse(i) => i < |s.callers| && s.callers[i].stage.Parsing?
    case Insert(i) => i < |s.callers| && s.callers[i].stage.Inserting?
  }

  function Move(s: State, i: nat, stage: Stage): State
    requires i < |s.callers|
  {
    s.(callers := s.callers[i := s.callers[i].(stage := stage)])
  }

  function Next(f: Formatters, s: State, e: Event): State
    requires Enabled(s, e)
  {
    match e
    case Enter(input) => s.(callers := s.callers + [Caller(input, Looking)])
    case Lookup(i) =>
      var input := s.callers[i].input;
      Move(s, i, if input in s.memo then Returned(s.memo[input]) else Parsing)
    case Parse(i) => Move(s, i, Inserting(PureParse(f, s.callers[i].input)))
    case Insert(i) =>
      var c := s.callers[i];
      Move(s.(memo := Record(s.memo, c.input, c.stage.parsed)), i, Returned(c.stage.parsed))
  }

  function Exec(f: Formatters, s: State, events: seq<Event>): Option<State>
    decreases |events|
  {
    if events == [] then Some(s)
    else if !Enabled(s, events[0]) then None
    else Exec(f, Next(f, s, events[0]), events[1..])
  }

  predicate CallerAgrees(f: Formatters, c: Caller) {
    && (c.stage.Inserting? ==> c.stage.parsed == PureParse(f, c.input))
    && (c.stage.Returned? ==> c.stage.value == PureParse(f, c.input))
  }

  predicate Inv(f: Formatters, s: State) {
    Agrees(f, s.memo) && forall i | 0 <= i < |s.callers| :: CallerAgrees(f, s.callers[i])
  }

  lemma StepKeepsInv(f: Formatters, s: State, e: Event)
    requires Inv(f, s) && Enabled(s, e)
    ensures Inv(f, Next(f, s, e))
  {
    var t := Next(f, s, e);
    if e.Insert? {
      assert CallerAgrees(f, s.callers[e.i]);
      RecordAgrees(f, s.memo, s.callers[e.i].input);
    } else if e.Lookup? {
      assert CallerAgrees(f, s.callers[e.i]);
    }
    hide Record, PureParse;
    forall j | 0 <= j < |t.callers| ensures CallerAgrees(f, t.callers[j]) {
      if j < |s.callers| {
        assert CallerAgrees(f, s.callers[j]);
      }
    }
  }

  lemma {:induction false} RunKeepsInv(f: Formatters, s: State, events: seq<Event>)
    requires Inv(f, s) && Exec(f, s, events).Some?
    ensures Inv(f, Exec(f, s, events).value)
    decreases |events|
  {
    if events != [] {
      StepKeepsInv(f, s, events[0]);
      RunKeepsInv(f, Next(f, s, events[0]), events[1..]);
    }
    hide Next, Enabled, Inv;
  }

  /** Under every interleaving of any number of callers, each finished call
      returned the pure parse, every entry (misses included) is the pure parse of
      its key, and the table never exceeds its cap. */
  lemma EveryCallerGetsThePureParse(f: Formatters, events: seq<Event>)
    requires Exec(f, State(map[], []), events).Some?
    ensures var t := Exec(f, State(map[], []), events).value;
            && |t.memo| <= 512
            && (forall s | s in t.memo :: t.memo[s] == if f.plain(s).Some? then f.plain(s) else f.fractional(s))
            && forall i | 0 <= i < |t.callers| && t.callers[i].stage.Returned? ::
                 var s := t.callers[i].input;
                 t.callers[i].stage.value == if f.plain(s).Some? then f.plain(s) else f.fractional(s)
  {
    RunKeepsInv(f, State(map[], []), events);
    var t := Exec(f, State(map[], []), events).value;
    forall i | 0 <= i < |t.callers| && t.callers[i].stage.Returned?
      ensures t.callers[i].stage.value == PureParse(f, t.callers[i].input)
    {
      assert CallerAgrees(f, t.callers[i]);
    }
    hide Exec;
  }

  /** Any caller can come at any time, and its own steps take it to the end: one look-up
      for a text that is remembered, and else the parse and its record. */
  lemma ACallReturns(f: Formatters, s: State, input: string) returns (events: seq<Event>, t: State)
    ensures Exec(f, s, events) == Some(t)
    ensures |t.callers| == |s.callers| + 1 && t.callers[..|s.callers|] == s.callers
    ensures var c := t.callers[|s.callers|]; c.input == input && c.stage.Returned?
    ensures input in t.memo
    ensures t.memo == if input in s.memo then s.memo
                      else (if |s.memo| >= 512 then map[] else s.memo)[input := PureParse(f, input)]
  {
    var i := |s.callers|;
    var a := Next(f, s, Enter(input));
    var b := Next(f, a, Lookup(i));
    if input in s.memo {
      events, t := [Enter(input), Lookup(i)], b;
      assert events[1..] == [Lookup(i)] && [Lookup(i)][1..] == [];
      assert Exec(f, b, []) == Some(b);
      assert Exec(f, a, [Lookup(i)]) == Some(b);
    } else {
      var c := Next(f, b, Parse(i));
      t := Next(f, c, Insert(i));
      events := [Enter(input), Lookup(i), Parse(i), Insert(i)];
      assert events[1..] == [Lookup(i), Parse(i), Insert(i)] && events[1..][1..] == [Parse(i), Insert(i)];
      assert events[1..][1..][1..] == [Insert(i)] && [Insert(i)][1..] == [];
      assert Exec(f, c, [Insert(i)]) == Exec(f, t, []) == Some(t);
      assert Exec(f, b, [Parse(i), Insert(i)]) == Some(t);
      assert Exec(f, a, [Lookup(i), Parse(i), Insert(i)]) == Some(t);
    }
  }
}
