/** The queue of notification records between the Python side, which appends to a
    file, and the desktop, which claims the file by renaming it. Producers open the
    file and then write; the consumer checks, clears a stale claim, renames, reads,
    removes and handles. Every system call is one step, and either side may die
    between two of them. A record is named by its place in the order of writes. */
module NotificationQueue {
  import opened Wrappers

  // -------------------------------------------------------------- the machine

  /** Where the file behind an open descriptor now is. */
  datatype Handle = InQueue | InClaim | Gone

  datatype Phase = Idle | Seen | Cleared | Claimed | Loaded | Handling

  /** The claimed file on disk; its first `taken` records were read into memory. */
  datatype Claim = Claim(records: seq<nat>, taken: nat)

  datatype State = State(
    queue: Option<seq<nat>>,
    claim: Option<Claim>,
    phase: Phase,
    memory: seq<nat>,       // read and not yet handled
    handled: seq<nat>,
    lost: seq<nat>,         // no longer in any file and never to be handled
    written: nat,           // records written so far
    claimed: nat,           // records written when the last claim was made
    handles: map<nat, Handle>)

  datatype Event =
    | Open(p: nat)
    | Write(p: nat)
    | Drop(p: nat)          // the producer dies, or its write fails
    | Check
    | ClearStale(done: bool)
    | Rename
    | Load(readable: bool)
    | Remove(done: bool)
    | HandleOne
    | Finish
    | Crash                 // of the desktop

  /** The files before anything was written. */
  function Initial(existsEmpty: bool): State {
    State(if existsEmpty then Some([]) else None, None, Idle, [], [], [], 0, 0, map[])
  }

  function Queued(s: State): seq<nat> {
    if s.queue.Some? then s.queue.value else []
  }

  /** Records of the claimed file that were not read into memory. */
  function Unread(s: State): seq<nat> {
    if s.claim.Some? && s.claim.value.taken <= |s.claim.value.records|
    then s.claim.value.records[s.claim.value.taken..] else []
  }

  function Renamed(handles: map<nat, Handle>): map<nat, Handle> {
    map p | p in handles :: if handles[p] == InQueue then InClaim else handles[p]
  }

  function Unlinked(handles: map<nat, Handle>): map<nat, Handle> {
    map p | p in handles :: if handles[p] == InClaim then Gone else handles[p]
  }

  function Unlink(s: State): State {
    s.(claim := None, lost := s.lost + Unread(s), handles := Unlinked(s.handles))
  }

  function WriteVia(s: State, h: Handle): State {
    var id := s.written;
    match h
    case InQueue => s.(queue := Some(Queued(s) + [id]), written := id + 1)
    case InClaim =>
      if s.claim.Some?
      then s.(claim := Some(s.claim.value.(records := s.claim.value.records + [id])), written := id + 1)
      else s.(lost := s.lost + [id], written := id + 1)
    case Gone => s.(lost := s.lost + [id], written := id + 1)
  }

  /** What an event does, or None when it cannot happen here. */
  function Step(s: State, e: Event): Option<State> {
    match e
    case Open(p) =>
      if p in s.handles then None
      else Some(s.(queue := Some(Queued(s)), handles := s.handles[p := InQueue]))
    case Write(p) =>
      if p !in s.handles then None
      else Some(WriteVia(s, s.handles[p]).(handles := s.handles - {p}))
    case Drop(p) =>
      if p !in s.handles then None else Some(s.(handles := s.handles - {p}))
    case Check =>
      if s.phase != Idle then None
      else Some(if s.queue.Some? then s.(phase := Seen) else s)
    case ClearStale(done) =>
      if s.phase != Seen then None
      else Some((if done then Unlink(s) else s).(phase := Cleared))
    case Rename =>
      if s.phase != Cleared then None
      else if s.queue.None? || s.claim.Some? then Some(s.(phase := Idle))
      else Some(s.(queue := None, claim := Some(Claim(s.queue.value, 0)), phase := Claimed,
                   claimed := s.written, handles := Renamed(s.handles)))
    case Load(readable) =>
      if s.phase != Claimed || s.claim.None? then None
      else if !readable then Some(s.(phase := Loaded, memory := []))
      else Some(s.(phase := Loaded, memory := s.claim.value.records,
                   claim := Some(s.claim.value.(taken := |s.claim.value.records|))))
    case Remove(done) =>
      if s.phase != Loaded then None
      else Some((if done then Unlink(s) else s).(phase := Handling))
    case HandleOne =>
      if s.phase != Handling || s.memory == [] then None
      else Some(s.(handled := s.handled + [s.memory[0]], memory := s.memory[1..]))
    case Finish =>
      if s.phase != Handling || s.memory != [] then None else Some(s.(phase := Idle))
    case Crash =>
      Some(s.(phase := Idle, lost := s.lost + s.memory, memory := []))
  }

  /** A run: None when some event could not happen where it stands. */
  function Run(s: State, events: seq<Event>): Option<State>
    decreases |events|
  {
    if events == [] then Some(s)
    else
      var next := Step(s, events[0]);
      if next.None? then None else Run(next.value, events[1..])
  }

  // ---------------------------------------------------- conservation, any run

  function Span(lo: nat, hi: nat): seq<nat>
    decreases hi
  {
    if lo >= hi then [] else Span(lo, hi - 1) + [hi - 1]
  }

  function Everywhere(s: State): multiset<nat> {
    Sum(multiset(s.handled), multiset(s.memory), multiset(Unread(s)), multiset(Queued(s)), multiset(s.lost))
  }

  predicate Shaped(s: State) {
    && (s.claim.Some? ==> s.claim.value.taken <= |s.claim.value.records|)
    && (s.phase == Claimed ==> s.claim.Some? && s.claim.value.taken == 0)
    && (s.phase == Idle || s.phase == Seen || s.phase == Cleared || s.phase == Claimed ==> s.memory == [])
    && (forall p | p in s.handles :: s.handles[p] == InClaim ==> s.claim.Some?)
  }

  predicate Sound(s: State) {
    Shaped(s) && Everywhere(s) == multiset(Span(0, s.written))
  }

  function Sum(a: multiset<nat>, b: multiset<nat>, c: multiset<nat>, d: multiset<nat>,
               e: multiset<nat>): multiset<nat> {
    a + b + c + d + e
  }

  lemma SumGrows(a: multiset<nat>, b: multiset<nat>, c: multiset<nat>, d: multiset<nat>, e: multiset<nat>, id: nat)
    ensures Sum(a, b, c + multiset{id}, d, e) == Sum(a, b, c, d, e) + multiset{id}
    ensures Sum(a, b, c, d + multiset{id}, e) == Sum(a, b, c, d, e) + multiset{id}
    ensures Sum(a, b, c, d, e + multiset{id}) == Sum(a, b, c, d, e) + multiset{id}
  {
  }

  lemma WriteIsCounted(s: State, h: Handle)
    requires Shaped(s) && (h == InClaim ==> s.claim.Some?)
    ensures Everywhere(WriteVia(s, h)) == Everywhere(s) + multiset{s.written}
  {
    var t := WriteVia(s, h);
    SumGrows(multiset(s.handled), multiset(s.memory), multiset(Unread(s)), multiset(Queued(s)), multiset(s.lost),
             s.written);
    GrownByOne(Queued(s), s.written);
    GrownByOne(Unread(s), s.written);
    GrownByOne(s.lost, s.written);
    hide Sum;
    match h
    case InQueue =>
      assert Unread(t) == Unread(s);
    case InClaim =>
      assert Unread(t) == Unread(s) + [s.written];
    case Gone =>
      assert Unread(t) == Unread(s);
  }

  lemma GrownByOne(ids: seq<nat>, id: nat)
    ensures multiset(ids + [id]) == multiset(ids) + multiset{id}
  {
  }

  lemma TakenIsCounted(s: State, t: State)
    requires Shaped(s) && s.phase == Claimed && Step(s, Load(true)) == Some(t)
    ensures Everywhere(t) == Everywhere(s)
  {
    assert Unread(s) == s.claim.value.records && Unread(t) == [];
  }

  lemma HandledIsCounted(s: State, t: State)
    requires Step(s, HandleOne) == Some(t)
    ensures Everywhere(t) == Everywhere(s)
  {
    var id, rest := s.memory[0], s.memory[1..];
    assert s.memory == [id] + rest && t.memory == rest && t.handled == s.handled + [id] && t.lost == s.lost;
    assert Unread(t) == Unread(s) && Queued(t) == Queued(s);
    assert multiset(s.memory) == multiset{id} + multiset(rest);
    GrownByOne(s.handled, id);
    SumShifts(multiset(s.handled), multiset(rest), multiset(Unread(s)), multiset(Queued(s)), multiset(s.lost), id);
    hide Sum, Unread, Queued, Step;
  }

  lemma SumShifts(a: multiset<nat>, b: multiset<nat>, c: multiset<nat>, d: multiset<nat>, e: multiset<nat>, id: nat)
    ensures Sum(a + multiset{id}, b, c, d, e) == Sum(a, multiset{id} + b, c, d, e)
  {
  }

  lemma ClaimIsCounted(s: State, t: State)
    requires Shaped(s) && Step(s, Rename) == Some(t)
    ensures Everywhere(t) == Everywhere(s)
  {
    if t.phase == Claimed {
      assert Unread(t) == Queued(s) && Unread(s) == [] && Queued(t) == [];
    }
  }

  lemma UnlinkIsCounted(s: State)
    requires Shaped(s)
    ensures Everywhere(Unlink(s)) == Everywhere(s)
  {
    assert Unread(Unlink(s)) == [];
  }

  lemma StepKeepsShape(s: State, e: Event, t: State)
    requires Shaped(s) && Step(s, e) == Some(t)
    ensures Shaped(t)
  {
    hide Unread;
  }

  lemma ConsumerConserves(s: State, e: Event, t: State)
    requires Shaped(s) && !e.Write? && Step(s, e) == Some(t)
    ensures Everywhere(t) == Everywhere(s)
  {
    if e.Rename? {
      ClaimIsCounted(s, t);
    } else if e.Load? && e.readable {
      TakenIsCounted(s, t);
    } else if e.HandleOne? {
      HandledIsCounted(s, t);
    } else if e.ClearStale? || e.Remove? {
      ConsumerFrame(s, e, t);
      UnlinkIsCounted(s);
      hide Everywhere;
    } else {
      OthersConserve(s, e, t);
      hide Everywhere;
    }
  }

  lemma OthersConserve(s: State, e: Event, t: State)
    requires Shaped(s) && Step(s, e) == Some(t)
    requires e.Open? || e.Drop? || e.Check? || e.Finish? || e.Crash? || e == Load(false)
    ensures Everywhere(t) == Everywhere(s)
  {
    assert Unread(t) == Unread(s) && Queued(t) == Queued(s) && t.handled == s.handled;
    if e.Crash? {
      assert t.memory == [] && t.lost == s.lost + s.memory;
      assert multiset(t.lost) == multiset(s.lost) + multiset(s.memory);
      SumMoves(multiset(s.handled), multiset(s.memory), multiset(Unread(s)), multiset(Queued(s)), multiset(s.lost));
      hide Unread, Queued, Step, Shaped, Sum;
    } else {
      assert t.memory == s.memory && t.lost == s.lost;
      hide Unread, Queued, Step, Shaped, Sum;
    }
  }

  lemma SumMoves(a: multiset<nat>, b: multiset<nat>, c: multiset<nat>, d: multiset<nat>, e: multiset<nat>)
    ensures Sum(a, multiset{}, c, d, e + b) == Sum(a, b, c, d, e)
  {
  }

  /** Only a write changes what there is, by one record. */
  lemma StepConserves(s: State, e: Event, t: State)
    requires Shaped(s) && Step(s, e) == Some(t)
    ensures Everywhere(t) == if e.Write? then Everywhere(s) + multiset{s.written} else Everywhere(s)
  {
    hide Everywhere, Shaped;
    if e.Write? {
      WriteConserves(s, e.p, t);
    } else {
      ConsumerConserves(s, e, t);
    }
    hide Step;
  }

  lemma WriteConserves(s: State, p: nat, t: State)
    requires Shaped(s) && Step(s, Write(p)) == Some(t)
    ensures Everywhere(t) == Everywhere(s) + multiset{s.written}
  {
    WriteIsCounted(s, s.handles[p]);
    var u := WriteVia(s, s.handles[p]);
    assert t == u.(handles := s.handles - {p});
    assert Unread(t) == Unread(u) && Queued(t) == Queued(u);
    hide WriteVia, Unread;
  }

  lemma WrittenCounts(s: State, e: Event, t: State)
    requires Step(s, e) == Some(t)
    ensures t.written == if e.Write? then s.written + 1 else s.written
  {
    hide Queued, Unread, Renamed, Unlinked;
  }

  lemma StepKeepsSound(s: State, e: Event, t: State)
    requires Sound(s) && Step(s, e) == Some(t)
    ensures Sound(t)
  {
    StepKeepsShape(s, e, t);
    StepConserves(s, e, t);
    WrittenCounts(s, e, t);
    hide Step, Shaped, Everywhere;
    SpanCons(s.written);
    hide Span;
  }

  lemma SpanCons(n: nat)
    ensures multiset(Span(0, n + 1)) == multiset(Span(0, n)) + multiset{n}
  {
    assert Span(0, n + 1) == Span(0, n) + [n];
  }

  lemma {:induction false} RunKeepsSound(s: State, events: seq<Event>, t: State)
    requires Sound(s) && Run(s, events) == Some(t)
    ensures Sound(t)
    decreases |events|
  {
    hide Step, Sound;
    if events != [] {
      var next := Step(s, events[0]).value;
      StepKeepsSound(s, events[0], next);
      RunKeepsSound(next, events[1..], t);
    }
  }

  lemma InitialIsSound(existsEmpty: bool)
    ensures Sound(Initial(existsEmpty))
  {
  }

  lemma {:induction false} SpanCounts(hi: nat, id: nat)
    ensures multiset(Span(0, hi))[id] == if id < hi then 1 else 0
  {
    if hi > 0 {
      SpanCounts(hi - 1, id);
      CountOneMore(Span(0, hi - 1), hi - 1, id);
    }
  }

  lemma CountOneMore(ids: seq<nat>, last: nat, id: nat)
    ensures multiset(ids + [last])[id] == multiset(ids)[id] + if id == last then 1 else 0
  {
  }

  /** Whatever the interleaving, the crashes and the failures: every record ever
      written is in exactly one place (handled, in memory, unread in a claimed
      file, queued, or lost), exactly once. */
  lemma EveryRecordIsInOnePlace(existsEmpty: bool, events: seq<Event>, t: State, id: nat)
    requires Run(Initial(existsEmpty), events) == Some(t)
    ensures multiset(t.handled)[id] + multiset(t.memory)[id] + multiset(Unread(t))[id]
            + multiset(Queued(t))[id] + multiset(t.lost)[id] == if id < t.written then 1 else 0
  {
    InitialIsSound(existsEmpty);
    RunKeepsSound(Initial(existsEmpty), events, t);
    SpanCounts(t.written, id);
    hide Run, Span, Unread, Queued;
  }

  /** So no record is handled twice. */
  lemma HandledAtMostOnce(existsEmpty: bool, events: seq<Event>, t: State, i: nat, j: nat)
    requires Run(Initial(existsEmpty), events) == Some(t)
    requires i < j < |t.handled|
    ensures t.handled[i] != t.handled[j] && t.handled[i] < t.written
  {
    EveryRecordIsInOnePlace(existsEmpty, events, t, t.handled[i]);
    var a, b := t.handled[..j], t.handled[j..];
    assert t.handled == a + b && a[i] == t.handled[i] && b[0] == t.handled[j];
    assert t.handled[i] in multiset(a) && t.handled[j] in multiset(b);
    assert multiset(t.handled) == multiset(a) + multiset(b);
    hide Run, Unread, Queued;
  }

  // ------------------------------------------- runs whose appends the claim respects

  /** No producer holds the file open when it is claimed, as a lock taken by both
      sides would ensure. Appends done in one piece are the special case. */
  predicate Quiet(s: State, events: seq<Event>)
    decreases |events|
  {
    events == [] ||
    var next := Step(s, events[0]);
    && (events[0] == Rename ==> s.handles == map[])
    && (next.Some? ==> Quiet(next.value, events[1..]))
  }

  predicate Increasing(ids: seq<nat>, bound: nat) {
    && (forall i | 0 <= i < |ids| :: ids[i] < bound)
    && (forall i, j | 0 <= i < j < |ids| :: ids[i] < ids[j])
  }

  /** The records on their way from a claimed file to being handled, in order. */
  function Taken(s: State): seq<nat> {
    s.handled + s.memory + Unread(s)
  }

  predicate Ordered(s: State) {
    && (s.claim.Some? ==> s.claim.value.taken <= |s.claim.value.records|)
    && (s.phase == Claimed ==> s.claim.Some? && s.claim.value.taken == 0)
    && (s.phase == Idle || s.phase == Seen || s.phase == Cleared || s.phase == Claimed ==> s.memory == [])
    && (forall p | p in s.handles :: s.handles[p] == InQueue && s.queue.Some?)
    && s.claimed <= s.written
    && Queued(s) == Span(s.claimed, s.written)
    && Increasing(Taken(s), s.claimed)
    && (forall id | id in s.lost :: id < s.claimed)
  }

  predicate Fault(e: Event) {
    e == Crash || e == Load(false)
  }

  /** Nothing claimed is missing. */
  predicate Complete(s: State) {
    s.lost == [] && Taken(s) == Span(0, s.claimed) && (s.phase != Claimed ==> Unread(s) == [])
  }

  lemma {:induction false} SpanIsIncreasing(lo: nat, hi: nat)
    ensures Increasing(Span(lo, hi), hi)
    ensures |Span(lo, hi)| == if lo <= hi then hi - lo else 0
    ensures forall i | 0 <= i < |Span(lo, hi)| :: Span(lo, hi)[i] == lo + i
    decreases hi
  {
    if lo < hi {
      SpanIsIncreasing(lo, hi - 1);
    }
  }

  lemma {:induction false} SpansMeet(a: nat, b: nat, c: nat)
    requires a <= b <= c
    ensures Span(a, b) + Span(b, c) == Span(a, c)
    decreases c
  {
    if b < c {
      SpansMeet(a, b, c - 1);
    }
  }

  lemma DroppingKeepsIncreasing(ids: seq<nat>, kept: seq<nat>, bound: nat)
    requires Increasing(ids, bound) && kept <= ids
    ensures Increasing(kept, bound)
  {
    assert forall i | 0 <= i < |kept| :: kept[i] == ids[i];
  }

  lemma ClaimMoves(s: State, t: State)
    requires Ordered(s) && Step(s, Rename) == Some(t) && t.phase == Claimed
    ensures Unread(t) == Queued(s) && Taken(t) == Taken(s) + Queued(s) && Queued(t) == []
    ensures Unread(s) == [] && t.claimed == s.written == t.written && t.lost == s.lost && t.memory == []
    ensures t.claim.Some? && t.claim.value.taken == 0
  {
    assert Unread(s) == [] && Unread(t) == Queued(s);
    assert Taken(t) == Taken(s) + Queued(s);
    hide Span, Increasing;
  }

  lemma IncreasingThenSpan(ids: seq<nat>, lo: nat, hi: nat)
    requires Increasing(ids, lo) && lo <= hi
    ensures Increasing(ids + Span(lo, hi), hi)
    ensures ids == Span(0, lo) ==> ids + Span(lo, hi) == Span(0, hi)
  {
    SpanIsIncreasing(lo, hi);
    SpansMeet(0, lo, hi);
    var span := Span(lo, hi);
    hide Span;
    IncreasingConcat(ids, lo, span, hi);
  }

  lemma IncreasingConcat(a: seq<nat>, lo: nat, b: seq<nat>, hi: nat)
    requires Increasing(a, lo) && Increasing(b, hi) && lo <= hi
    requires forall i | 0 <= i < |b| :: lo <= b[i]
    ensures Increasing(a + b, hi)
  {
    var all := a + b;
    forall i, j | 0 <= i < j < |all| ensures all[i] < all[j] {
      if i < |a| <= j {
        assert all[i] == a[i] && all[j] == b[j - |a|];
      }
    }
  }

  lemma ClaimStaysOrdered(s: State, t: State)
    requires Ordered(s) && s.handles == map[] && Step(s, Rename) == Some(t)
    ensures Ordered(t) && (Complete(s) ==> Complete(t))
  {
    if t.phase == Claimed {
      ClaimMoves(s, t);
      IncreasingThenSpan(Taken(s), s.claimed, s.written);
      assert Span(t.claimed, t.written) == [];
      assert t.handles == map[];
      hide Span, Increasing, Taken, Unread, Queued, Step;
    } else {
      assert t == s.(phase := Idle);
      assert Taken(t) == Taken(s) && Unread(t) == Unread(s) && Queued(t) == Queued(s);
      hide Span, Increasing, Taken, Unread, Queued, Step;
    }
  }

  lemma UnlinkKeepsOrder(s: State)
    requires Ordered(s)
    ensures var t := Unlink(s);
            Increasing(Taken(t), t.claimed) && (forall id | id in t.lost :: id < t.claimed)
            && (Unread(s) == [] ==> Taken(t) == Taken(s) && t.lost == s.lost)
  {
    var t := Unlink(s);
    assert Taken(t) == s.handled + s.memory;
    assert s.handled + s.memory <= Taken(s);
    DroppingKeepsIncreasing(Taken(s), Taken(t), s.claimed);
    forall id | id in Unread(s) ensures id < s.claimed {
      assert id in Taken(s);
    }
    hide Span, Taken, Increasing;
  }

  lemma UnlinkStaysOrdered(s: State)
    requires Ordered(s) && s.phase != Claimed
    ensures Ordered(Unlink(s)) && (Complete(s) ==> Complete(Unlink(s)))
  {
    UnlinkKeepsOrder(s);
    assert Queued(Unlink(s)) == Queued(s) && Unread(Unlink(s)) == [];
    hide Span, Taken, Increasing, Unread, Queued;
  }

  lemma HandlingStaysOrdered(s: State, t: State)
    requires Step(s, HandleOne) == Some(t)
    ensures Taken(t) == Taken(s)
  {
    assert s.memory == [s.memory[0]] + s.memory[1..];
    assert Unread(t) == Unread(s);
  }

  lemma CrashStaysOrdered(s: State, t: State)
    requires Ordered(s) && Step(s, Crash) == Some(t)
    ensures Ordered(t)
  {
    assert Unread(t) == Unread(s);
    var ids, h, m, u := Taken(s), s.handled, s.memory, Unread(s);
    assert ids == h + m + u;
    assert Taken(t) == h + u;
    forall id | id in m ensures id < s.claimed {
      assert id in ids;
    }
    forall i | 0 <= i < |h + u| ensures (h + u)[i] == ids[if i < |h| then i else i + |m|] {
    }
    hide Span, Taken, Unread;
  }

  lemma LoadStaysOrdered(s: State, readable: bool, t: State)
    requires Ordered(s) && Step(s, Load(readable)) == Some(t)
    ensures Taken(t) == Taken(s) && (readable ==> Unread(t) == [])
  {
    if readable {
      assert Unread(s) == s.claim.value.records;
    }
  }

  lemma ProducerStaysOrdered(s: State, e: Event, t: State)
    requires Ordered(s) && (e.Open? || e.Write? || e.Drop?) && Step(s, e) == Some(t)
    ensures Ordered(t) && (Complete(s) ==> Complete(t))
  {
    assert Taken(t) == Taken(s) && Unread(t) == Unread(s);
    if e.Write? {
      assert Span(s.claimed, t.written) == Span(s.claimed, s.written) + [s.written];
    }
    hide Span, Taken, Increasing;
  }

  lemma PhaseStaysOrdered(s: State, phase: Phase)
    requires Ordered(s) && s.phase != Claimed
    requires phase == Handling || (phase == Cleared && s.memory == [])
    ensures Ordered(s.(phase := phase)) && (Complete(s) ==> Complete(s.(phase := phase)))
  {
    var t := s.(phase := phase);
    assert Unread(t) == Unread(s) && Taken(t) == Taken(s) && Queued(t) == Queued(s);
    hide Span, Taken, Increasing, Unread, Queued;
  }

  lemma RemovalStaysOrdered(s: State, e: Event, t: State)
    requires Ordered(s) && (e.ClearStale? || e.Remove?) && Step(s, e) == Some(t)
    ensures Ordered(t) && (Complete(s) ==> Complete(t))
  {
    var u := if e.done then Unlink(s) else s;
    assert t == u.(phase := t.phase);
    assert s.phase == Seen ==> s.memory == [];
    hide Complete, Ordered;
    UnlinkStaysOrdered(s);
    PhaseStaysOrdered(u, t.phase);
  }

  lemma ReadingStaysOrdered(s: State, e: Event, t: State)
    requires Ordered(s) && (e.Check? || e.Load? || e.HandleOne? || e.Finish?) && Step(s, e) == Some(t)
    ensures Ordered(t) && (Complete(s) && !Fault(e) ==> Complete(t))
  {
    if e.HandleOne? {
      HandlingStaysOrdered(s, t);
    } else if e.Load? {
      LoadStaysOrdered(s, e.readable, t);
    } else {
      assert Taken(t) == Taken(s) && Unread(t) == Unread(s);
    }
    hide Span, Taken, Increasing;
  }

  lemma StepStaysOrdered(s: State, e: Event, t: State)
    requires Ordered(s) && Step(s, e) == Some(t) && (e == Rename ==> s.handles == map[])
    ensures Ordered(t) && (Complete(s) && !Fault(e) ==> Complete(t))
  {
    if e.Open? || e.Write? || e.Drop? {
      ProducerStaysOrdered(s, e, t);
    } else if e.ClearStale? || e.Remove? {
      RemovalStaysOrdered(s, e, t);
    } else if e.Rename? {
      ClaimStaysOrdered(s, t);
    } else if e.Crash? {
      CrashStaysOrdered(s, t);
    } else {
      ReadingStaysOrdered(s, e, t);
    }
    hide Step, Ordered, Complete;
  }

  lemma ConsumerFrame(s: State, e: Event, t: State)
    requires (e.ClearStale? || e.Remove?) && Step(s, e) == Some(t)
    ensures var u := if e.done then Unlink(s) else s;
            t == u.(phase := t.phase) && Taken(t) == Taken(u) && Queued(t) == Queued(s) && Unread(t) == Unread(u)
            && Everywhere(t) == Everywhere(u)
  {
  }

  lemma {:induction false} RunStaysOrdered(s: State, events: seq<Event>, t: State)
    requires Ordered(s) && Quiet(s, events) && Run(s, events) == Some(t)
    ensures Ordered(t)
    ensures Complete(s) && (forall e | e in events :: !Fault(e)) ==> Complete(t)
    decreases |events|
  {
    hide Step, Ordered, Complete, Fault;
    if events != [] {
      var next := Step(s, events[0]).value;
      assert events[0] in events;
      StepStaysOrdered(s, events[0], next);
      RunStaysOrdered(next, events[1..], t);
    }
  }

  lemma InitialIsOrdered(existsEmpty: bool)
    ensures Ordered(Initial(existsEmpty)) && Complete(Initial(existsEmpty))
  {
  }

  /** With crashes and failed reads anywhere: records are handled in the order they
      were written, the queue file holds exactly the records written since the last
      claim, and only records of an already claimed batch can be lost. */
  lemma CrashesLoseOnlyClaimedRecords(existsEmpty: bool, events: seq<Event>, t: State)
    requires Quiet(Initial(existsEmpty), events) && Run(Initial(existsEmpty), events) == Some(t)
    ensures Increasing(t.handled + t.memory + Unread(t), t.claimed)
    ensures Queued(t) == Span(t.claimed, t.written)
    ensures forall id | id in t.lost :: id < t.claimed
  {
    InitialIsOrdered(existsEmpty);
    RunStaysOrdered(Initial(existsEmpty), events, t);
    hide Run, Quiet, Unread, Queued;
  }

  /** Without crashes and failed reads nothing is ever missing: the records written
      so far are the handled, the claimed and the queued ones, in this order. */
  lemma NothingIsLostWithoutFaults(existsEmpty: bool, events: seq<Event>, t: State)
    requires Quiet(Initial(existsEmpty), events) && Run(Initial(existsEmpty), events) == Some(t)
    requires forall e | e in events :: !Fault(e)
    ensures t.lost == [] && t.handled + t.memory + Unread(t) + Queued(t) == Span(0, t.written)
  {
    InitialIsOrdered(existsEmpty);
    RunStaysOrdered(Initial(existsEmpty), events, t);
    SpansMeet(0, t.claimed, t.written);
    hide Run, Quiet, Unread, Queued, Fault;
  }

  // ------------------------------------- the claim takes no lock: what that costs

  /** Records that will never be handled: lost already, or left in a claimed file
      that is not going to be read. */
  function Missed(s: State): nat {
    |s.lost| + if s.phase == Claimed then 0 else |Unread(s)|
  }

  /** Every write reaches its file before the consumer has read it. */
  predicate Timely(s: State, events: seq<Event>)
    decreases |events|
  {
    events == [] ||
    var next := Step(s, events[0]);
    && (events[0].Write? && events[0].p in s.handles ==> TimelyWrite(s, s.handles[events[0].p]))
    && (next.Some? ==> Timely(next.value, events[1..]))
  }

  predicate TimelyWrite(s: State, h: Handle) {
    h == InQueue || (h == InClaim && s.phase == Claimed)
  }

  lemma StepMisses(s: State, e: Event, t: State)
    requires Sound(s) && Step(s, e) == Some(t) && !Fault(e)
    ensures Missed(t) == Missed(s) + if e.Write? && !TimelyWrite(s, s.handles[e.p]) then 1 else 0
  {
    hide Everywhere, Span;
    match e
    case Write(p) =>
      if s.handles[p] == InClaim {
        assert Unread(t) == Unread(s) + [s.written];
      }
    case _ =>
  }

  lemma {:induction false} RunMisses(s: State, events: seq<Event>, t: State)
    requires Sound(s) && Run(s, events) == Some(t) && forall e | e in events :: !Fault(e)
    ensures Missed(t) >= Missed(s)
    ensures Missed(t) == Missed(s) <==> Timely(s, events)
    decreases |events|
  {
    hide Sound, Fault, Missed, TimelyWrite;
    if events != [] {
      var next := Step(s, events[0]).value;
      assert events[0] in events;
      StepKeepsSound(s, events[0], next);
      StepMisses(s, events[0], next);
      RunMisses(next, events[1..], t);
      assert events[0].Write? ==> events[0].p in s.handles;
      hide Step;
    }
  }

  /** With producers that open and write in two steps, and no lock on the renaming
      side, a run without faults misses no record exactly when every write found
      its file not yet read. */
  lemma NothingIsMissedIffWritesAreTimely(existsEmpty: bool, events: seq<Event>, t: State)
    requires Run(Initial(existsEmpty), events) == Some(t) && forall e | e in events :: !Fault(e)
    ensures Missed(t) == 0 <==> Timely(Initial(existsEmpty), events)
  {
    InitialIsSound(existsEmpty);
    RunMisses(Initial(existsEmpty), events, t);
    assert Missed(Initial(existsEmpty)) == 0;
    hide Run, Timely, Missed, Fault;
  }

  // -------------------------------------------------- why a record can be lost

  function SetOf(ids: seq<nat>): set<nat> {
    set id | id in ids
  }

  /** The records a step puts into a claimed file that is still to be read. */
  function ClaimedBy(s: State, e: Event): set<nat> {
    if e.Rename? && s.phase == Cleared && s.claim.None? then SetOf(Queued(s))
    else if e.Write? && e.p in s.handles && s.handles[e.p] == InClaim && s.phase == Claimed then {s.written}
    else {}
  }

  /** The record a step writes where nobody will read it any more. */
  function LateBy(s: State, e: Event): set<nat> {
    if e.Write? && e.p in s.handles && !TimelyWrite(s, s.handles[e.p]) then {s.written} else {}
  }

  function ClaimedIn(s: State, events: seq<Event>): set<nat>
    decreases |events|
  {
    if events == [] then {}
    else
      var next := Step(s, events[0]);
      ClaimedBy(s, events[0]) + if next.None? then {} else ClaimedIn(next.value, events[1..])
  }

  function LateIn(s: State, events: seq<Event>): set<nat>
    decreases |events|
  {
    if events == [] then {}
    else
      var next := Step(s, events[0]);
      LateBy(s, events[0]) + if next.None? then {} else LateIn(next.value, events[1..])
  }

  /** What one step does to the queue file, record by record. */
  lemma StepQueues(s: State, e: Event, t: State, id: nat)
    requires Shaped(s) && Step(s, e) == Some(t) && forall x | x in Queued(s) :: x < s.written
    ensures forall x | x in Queued(t) :: x < t.written
    ensures s.written <= t.written
    ensures id in Queued(t) <==>
            (id in Queued(s) || s.written <= id < t.written) && id !in ClaimedBy(s, e) && id !in LateBy(s, e)
    ensures id in ClaimedBy(s, e) || id in LateBy(s, e) ==> id < t.written
  {
    hide Unread;
    if e.Write? && s.handles[e.p] == InQueue {
      assert Queued(t) == Queued(s) + [s.written];
    } else if e.Rename? && t.phase == Claimed {
      assert Queued(t) == [];
    } else {
      assert Queued(t) == Queued(s);
    }
    hide Step, Queued;
  }

  lemma {:induction false} RunQueues(s: State, events: seq<Event>, t: State, id: nat)
    requires Shaped(s) && Run(s, events) == Some(t) && forall x | x in Queued(s) :: x < s.written
    ensures s.written <= t.written
    ensures id in Queued(t) <==>
            (id in Queued(s) || s.written <= id < t.written) && id !in ClaimedIn(s, events) && id !in LateIn(s, events)
    decreases |events|
  {
    if events != [] {
      var next := Step(s, events[0]).value;
      StepKeepsShape(s, events[0], next);
      StepQueues(s, events[0], next, id);
      hide Step, Shaped, Queued, ClaimedBy, LateBy;
      RunQueues(next, events[1..], t, id);
    }
  }

  /** For every run, whatever crashes, fails and interleaves: a record is still queued
      exactly when it was never in a claimed file to be read and was not written too
      late for one. So every lost record was claimed, or written too late. */
  lemma EveryLossHasACause(existsEmpty: bool, events: seq<Event>, t: State, id: nat)
    requires Run(Initial(existsEmpty), events) == Some(t)
    ensures var claimed, late := ClaimedIn(Initial(existsEmpty), events), LateIn(Initial(existsEmpty), events);
            && (id < t.written ==> (id in Queued(t) <==> id !in claimed && id !in late))
            && (id in t.lost ==> id in claimed || id in late)
  {
    RunQueues(Initial(existsEmpty), events, t, id);
    EveryRecordIsInOnePlace(existsEmpty, events, t, id);
    assert id in t.lost <==> multiset(t.lost)[id] > 0;
    assert id in Queued(t) <==> multiset(Queued(t))[id] > 0;
    hide Run, ClaimedIn, LateIn, Unread;
  }

  lemma OpenFirst(s: State)
    requires s == Initial(false)
    ensures Run(s, [Open(0), Check]) == Some(s.(queue := Some([]), handles := map[0 := InQueue], phase := Seen))
  {
    assert Step(s, Open(0)) == Some(s.(queue := Some([]), handles := map[0 := InQueue]));
    RunTwo(s, Open(0), Check);
    hide Run;
  }

  lemma ClaimUnderWriter(s: State)
    requires s == Initial(false).(queue := Some([]), handles := map[0 := InQueue], phase := Seen)
    ensures Run(s, [ClearStale(true), Rename])
            == Some(s.(queue := None, claim := Some(Claim([], 0)), phase := Claimed, handles := map[0 := InClaim]))
  {
    assert Unread(s) == [] && s.lost + [] == s.lost;
    assert Unlinked(s.handles) == s.handles;
    assert Step(s, ClearStale(true)) == Some(s.(phase := Cleared));
    assert Renamed(s.handles) == map[0 := InClaim];
    RunTwo(s, ClearStale(true), Rename);
    hide Run;
  }

  lemma AppendOverClaim()
    ensures var events := [Open(0), Check, ClearStale(true), Rename];
            Run(Initial(false), events)
            == Some(Initial(false).(claim := Some(Claim([], 0)), phase := Claimed, handles := map[0 := InClaim]))
  {
    var s, first, second := Initial(false), [Open(0), Check], [ClearStale(true), Rename];
    OpenFirst(s);
    ClaimUnderWriter(Run(s, first).value);
    assert first + second == [Open(0), Check, ClearStale(true), Rename];
    hide Step;
    RunConcat(s, first, second);
    hide Run;
  }

  lemma ReadEmptyClaim(s: State)
    requires s.claim == Some(Claim([], 0)) && s.phase == Claimed && s.handles == map[0 := InClaim]
    ensures Run(s, [Load(true), Remove(true)])
            == Some(s.(phase := Handling, memory := [], claim := None, handles := map[0 := Gone]))
  {
    var s1 := s.(phase := Loaded, memory := []);
    assert Step(s, Load(true)) == Some(s1);
    assert Unread(s1) == [] && s1.lost + [] == s1.lost;
    assert Unlinked(s1.handles) == map[0 := Gone];
    RunTwo(s, Load(true), Remove(true));
    hide Run;
  }

  lemma WriteGone(s: State)
    requires s.phase == Handling && s.memory == [] && s.handles == map[0 := Gone] && s.lost == [] && s.written == 0
    ensures Run(s, [Finish, Write(0)])
            == Some(s.(phase := Idle, lost := [0], written := 1, handles := map[]))
  {
    assert Step(s, Finish) == Some(s.(phase := Idle));
    assert s.lost + [0] == [0] && s.handles - {0} == map[];
    RunTwo(s, Finish, Write(0));
    hide Run;
  }

  lemma WriteAfterRead(s: State)
    requires s == Initial(false).(claim := Some(Claim([], 0)), phase := Claimed, handles := map[0 := InClaim])
    ensures var t := Run(s, [Load(true), Remove(true), Finish, Write(0)]);
            t.Some? && t.value.lost == [0] && t.value.handled == []
  {
    var first, second := [Load(true), Remove(true)], [Finish, Write(0)];
    ReadEmptyClaim(s);
    var t := Run(s, first).value;
    WriteGone(t);
    assert first + second == [Load(true), Remove(true), Finish, Write(0)];
    hide Step;
    RunConcat(s, first, second);
    hide Run;
  }

  lemma RunTwo(s: State, a: Event, b: Event)
    requires Step(s, a).Some?
    ensures Run(s, [a, b]) == Step(Step(s, a).value, b)
  {
    hide Step;
    var s1 := Step(s, a).value;
    RunCons(s, a, [b]);
    RunCons(s1, b, []);
    assert [a] + [b] == [a, b] && [b] + [] == [b];
    assert Step(s1, b).Some? ==> Run(Step(s1, b).value, []) == Step(s1, b);
  }

  /** The producer's lock does not serialise it against the claim: this run has no
      crash and no failure and still loses its only record. */
  lemma ProducerLockDoesNotProtect()
    ensures var events := [Open(0), Check, ClearStale(true), Rename] + [Load(true), Remove(true), Finish, Write(0)];
            var t := Run(Initial(false), events);
            t.Some? && t.value.lost == [0] && t.value.handled == [] && forall e | e in events :: !Fault(e)
  {
    var first, second := [Open(0), Check, ClearStale(true), Rename], [Load(true), Remove(true), Finish, Write(0)];
    AppendOverClaim();
    WriteAfterRead(Run(Initial(false), first).value);
    hide Step;
    RunConcat(Initial(false), first, second);
    hide Run;
  }

  lemma {:induction false} RunConcat(s: State, a: seq<Event>, b: seq<Event>)
    requires Run(s, a).Some?
    ensures Run(s, a + b) == Run(Run(s, a).value, b)
    decreases |a|
  {
    hide Step;
    if a == [] {
      assert a + b == b;
    } else {
      assert (a + b)[1..] == a[1..] + b;
      RunConcat(Step(s, a[0]).value, a[1..], b);
    }
  }

  lemma RunCons(s: State, e: Event, rest: seq<Event>)
    ensures Run(s, [e] + rest) == if Step(s, e).None? then None else Run(Step(s, e).value, rest)
  {
    assert ([e] + rest)[1..] == rest;
  }

  // --------------------------------------------------------------- progress

  /** Handling what was read, record by record, to the end of the cycle. */
  lemma {:induction false} HandleAll(s: State) returns (events: seq<Event>)
    requires s.phase == Handling
    ensures Run(s, events) == Some(s.(handled := s.handled + s.memory, memory := [], phase := Idle))
    ensures forall e | e in events :: e == HandleOne || e == Finish
    decreases |s.memory|
  {
    if s.memory == [] {
      events := [Finish];
      RunCons(s, Finish, []);
      assert [Finish] + [] == [Finish];
      assert s.handled + s.memory == s.handled;
    } else {
      var next := Step(s, HandleOne).value;
      var rest := HandleAll(next);
      events := [HandleOne] + rest;
      RunCons(s, HandleOne, rest);
      assert s.handled + [s.memory[0]] + s.memory[1..] == s.handled + s.memory;
    }
  }

  /** The claim of a queued file, up to where its records are in memory. */
  lemma ClaimAndRead(s: State) returns (t: State)
    requires Shaped(s) && s.phase == Idle && s.queue.Some?
    ensures Run(s, [Check, ClearStale(true), Rename, Load(true), Remove(true)]) == Some(t)
    ensures t.phase == Handling && t.memory == Queued(s) && t.handled == s.handled && t.lost == s.lost + Unread(s)
    ensures t.queue == None && t.claim == None && t.written == s.written
  {
    var a := Step(s, Check).value;
    var b := Step(a, ClearStale(true)).value;
    var c := Step(b, Rename).value;
    var d := Step(c, Load(true)).value;
    t := Step(d, Remove(true)).value;
    assert t.lost == s.lost + Unread(s) + [];
    assert [Check, ClearStale(true), Rename, Load(true), Remove(true)]
        == [Check] + ([ClearStale(true)] + ([Rename] + ([Load(true)] + ([Remove(true)] + []))));
    hide Step, Unread;
    RunCons(s, Check, [ClearStale(true)] + ([Rename] + ([Load(true)] + ([Remove(true)] + []))));
    RunCons(a, ClearStale(true), [Rename] + ([Load(true)] + ([Remove(true)] + [])));
    RunCons(b, Rename, [Load(true)] + ([Remove(true)] + []));
    RunCons(c, Load(true), [Remove(true)] + []);
    RunCons(d, Remove(true), []);
  }

  /** Wherever a run leaves the desktop idle with a queue, a cycle without fault is
      possible, and it ends idle with every queued record handled, in order, and no file
      left; only what a stale claim still held is given up. */
  lemma ACycleHandlesTheQueue(existsEmpty: bool, before: seq<Event>, s: State) returns (cycle: seq<Event>, t: State)
    requires Run(Initial(existsEmpty), before) == Some(s) && s.phase == Idle && s.queue.Some?
    ensures Run(s, cycle) == Some(t) && forall e | e in cycle :: !Fault(e)
    ensures t.phase == Idle && t.queue == None && t.claim == None && t.memory == []
    ensures t.handled == s.handled + Queued(s) && t.lost == s.lost + Unread(s)
  {
    InitialIsSound(existsEmpty);
    RunKeepsSound(Initial(existsEmpty), before, s);
    assert Sound(s) ==> Shaped(s);
    hide *;
    var read := ClaimAndRead(s);
    var rest := HandleAll(read);
    var first := [Check, ClearStale(true), Rename, Load(true), Remove(true)];
    cycle := first + rest;
    RunConcat(s, first, rest);
    NoFaults(rest);
    t := read.(handled := read.handled + read.memory, memory := [], phase := Idle);
  }

  lemma NoFaults(rest: seq<Event>)
    requires forall e | e in rest :: e == HandleOne || e == Finish
    ensures forall e | e in [Check, ClearStale(true), Rename, Load(true), Remove(true)] + rest :: !Fault(e)
  {
  }
}
