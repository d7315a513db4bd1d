/** Submitting a sub-agent task under a workspace grant, as a state machine over
    atomic steps: the submitting thread, any number of threads delivering a
    result, and the rest of the access service interleave freely. Lock sections and store
    transactions are single steps. */
module GrantSettlement {
  import opened Wrappers
  import opened GrantStore

  datatype ExecutionResult = ExecutionResult(success: bool, summary: string)

  // -------------------------------------------------------------- the adapter

  datatype Adapter = Adapter(result: Option<ExecutionResult>, done: bool)

  /** The lock section of `send_result`: only the first result is kept. */
  function KeepFirst(a: Adapter, r: ExecutionResult): Adapter {
    if a.result.Some? then a else a.(result := Some(r))
  }

  // -------------------------------------------------------------- the machine

  /** Where the submitting thread is. */
  datatype Pc =
    | Authorized     // holds the grant, nothing created yet
    | TaskCreated
    | Bound          // grant bound to the task (or there is no grant)
    | Submitting     // inside the gateway's submit_task
    | Failing        // an exception reached the handler
    | RaisedBefore   // the handler ran and re-raised
    | Accepted
    | Registered     // adapter recorded under the task id
    | Returned
    | RaisedAfter    // reading back session data raised after acceptance

  /** Where a thread delivering a result is. */
  datatype CallPc = Entered | Dropped | Won | Completed | Finished

  datatype Caller = Caller(pc: CallPc, result: ExecutionResult)

  /** The submitting thread's own state. */
  datatype Submit = Submit(
    pc: Pc,
    taskKnown: bool, // the task object exists
    held: bool,      // the gateway has recorded the adapter
    torn: bool,      // submit_task raised after recording it
    aborts: nat      // abort attempts
  )

  /** The adapter and the threads delivering to it. */
  datatype Delivery = Delivery(
    adapter: Adapter,
    callers: seq<Caller>,
    winner: Option<nat>, // the caller whose result was stored
    completions: nat     // completion attempts
  )

  /** How the grant's hold on its row ended: the row was given back, used up, or
      taken away by an expiry or a denial. */
  datatype Ending = Open | GivenBack | UsedUp | Lapsed

  /** The stored approval row. */
  datatype Ledger = Ledger(
    row: Row,
    ending: Ending,
    settlements: nat, // times the grant lost the row
    failed: bool,     // a store operation of this run raised
    touched: bool     // someone else changed the row
  )

  /** The grant id is empty when the run needed no grant. */
  datatype State = State(grantId: string, taskId: string, submit: Submit, delivery: Delivery, ledger: Ledger)

  datatype Event =
    | RaiseEarly
    | CreateTask
    | BindTask(fails: bool)
    | CallGateway
    | GatewayRejects
    | GatewayHolds
    | GatewayRaises
    | GatewayAccepts
    | AbortGrant(fails: bool)
    | RegisterAdapter
    | ReadBack(raises: bool)
    | Deliver(result: ExecutionResult)
    | Lock(caller: nat)
    | CompleteGrant(caller: nat, fails: bool)
    | SetDone(caller: nat)
    | Elsewhere(step: Step) // another caller's operation on the row

  function Start(grantId: string, taskId: string): State {
    State(grantId, taskId, Submit(Authorized, false, false, false, 0),
          Delivery(Adapter(None, false), [], None, 0), Ledger(Row(grantId, Active, ""), Open, 0, false, false))
  }

  predicate AtCall(d: Delivery, i: nat, pc: CallPc) {
    i < |d.callers| && d.callers[i].pc == pc
  }

  predicate Enabled(s: State, e: Event) {
    var pc := s.submit.pc;
    match e
    case RaiseEarly => pc == Authorized || pc == TaskCreated || pc == Bound
    case CreateTask => pc == Authorized
    case BindTask(_) => pc == TaskCreated
    case CallGateway => pc == Bound
    case GatewayRejects => pc == Submitting && !s.submit.held
    case GatewayHolds => pc == Submitting && !s.submit.held
    case GatewayRaises => pc == Submitting
    case GatewayAccepts => pc == Submitting && s.submit.held
    case AbortGrant(_) => pc == Failing
    case RegisterAdapter => pc == Accepted
    case ReadBack(_) => pc == Registered
    case Deliver(_) => s.submit.held
    case Lock(i) => AtCall(s.delivery, i, Entered)
    case CompleteGrant(i, _) => AtCall(s.delivery, i, Won)
    case SetDone(i) => AtCall(s.delivery, i, Completed)
    case Elsewhere(step) => IsElsewhere(step, s.grantId)
  }

  /** Not under this run's grant, and not issuing that grant again. */
  predicate IsElsewhere(step: Step, grantId: string) {
    NotReissued(step, grantId) && (step.Under? ==> step.grant != grantId)
  }

  predicate BindSucceeds(s: State, fails: bool) {
    !fails && s.ledger.row.grantId == s.grantId && Applies(Bind, s.ledger.row, s.taskId)
  }

  /** The submitting thread's step. */
  function SubmitStep(s: State, e: Event): Submit {
    var p := s.submit;
    match e
    case RaiseEarly => p.(pc := Failing)
    case CreateTask => p.(pc := TaskCreated, taskKnown := true)
    case BindTask(fails) => p.(pc := if s.grantId == "" || BindSucceeds(s, fails) then Bound else Failing)
    case CallGateway => p.(pc := Submitting)
    case GatewayRejects => p.(pc := Failing)
    case GatewayHolds => p.(held := true)
    case GatewayRaises => p.(pc := Failing, torn := p.held)
    case GatewayAccepts => p.(pc := Accepted)
    case AbortGrant(_) => p.(pc := RaisedBefore, aborts := if s.grantId == "" then p.aborts else p.aborts + 1)
    case RegisterAdapter => p.(pc := Registered)
    case ReadBack(raises) => p.(pc := if raises then RaisedAfter else Returned)
    case _ => p
  }

  function MoveCaller(d: Delivery, i: nat, pc: CallPc): Delivery
    requires i < |d.callers|
  {
    d.(callers := d.callers[i := d.callers[i].(pc := pc)])
  }

  /** The delivering threads' steps. */
  function DeliveryStep(s: State, e: Event): Delivery
    requires Enabled(s, e)
  {
    var d := s.delivery;
    match e
    case Deliver(r) => d.(callers := d.callers + [Caller(Entered, r)])
    case Lock(i) =>
      if d.adapter.result.Some? then MoveCaller(d, i, Dropped)
      else MoveCaller(d, i, Won).(adapter := KeepFirst(d.adapter, d.callers[i].result), winner := Some(i))
    case CompleteGrant(i, _) =>
      MoveCaller(d, i, Completed).(completions := if s.grantId == "" then d.completions else d.completions + 1)
    case SetDone(i) => MoveCaller(d, i, Finished).(adapter := d.adapter.(done := true))
    case _ => d
  }

  /** A store operation under the grant; `fails` is an exception inside it. */
  function OnRow(s: State, op: Operation, taskId: string, fails: bool): Ledger {
    var l := s.ledger;
    if s.grantId == "" then l
    else if fails then l.(failed := true)
    else Moved(l, s.grantId, StepRow(l.row, Under(op, s.grantId, taskId)), if op == Abort then GivenBack else UsedUp)
  }

  /** The ledger with the row moved; `ending` says what it means if the grant
      thereby loses the row. */
  function Moved(l: Ledger, grantId: string, row: Row, ending: Ending): Ledger {
    if grantId != "" && Holds(l.row, grantId) && !Holds(row, grantId)
    then l.(row := row, ending := ending, settlements := l.settlements + 1)
    else l.(row := row)
  }

  function LedgerStep(s: State, e: Event): Ledger {
    match e
    case BindTask(fails) => OnRow(s, Bind, s.taskId, fails)
    case AbortGrant(fails) => OnRow(s, Abort, if s.submit.taskKnown then s.taskId else "", fails)
    case CompleteGrant(_, fails) => OnRow(s, Complete, s.taskId, fails)
    case Elsewhere(step) =>
      var row := StepRow(s.ledger.row, step);
      if row == s.ledger.row then s.ledger else Moved(s.ledger, s.grantId, row, Lapsed).(touched := true)
    case _ => s.ledger
  }

  function Apply(s: State, e: Event): State
    requires Enabled(s, e)
  {
    s.(submit := SubmitStep(s, e), delivery := DeliveryStep(s, e), ledger := LedgerStep(s, e))
  }

  /** The states a run passes through: `Some` of the last one when every step
      was enabled in turn. */
  function Exec(s: State, events: seq<Event>): Option<State>
    decreases |events|
  {
    if events == [] then Some(s)
    else if !Enabled(s, events[0]) then None
    else Exec(Apply(s, events[0]), events[1..])
  }

  // ------------------------------------------------------------- invariants

  predicate Owns(pc: CallPc) {
    pc == Won || pc == Completed || pc == Finished
  }

  /** The stored result has one owner, which alone completes and signals. */
  predicate OneWinner(d: Delivery, granted: bool) {
    && (d.winner.Some? <==> d.adapter.result.Some?)
    && (forall i | 0 <= i < |d.callers| :: Owns(d.callers[i].pc) ==> d.winner == Some(i))
    && (d.winner.Some? ==>
          && d.winner.value < |d.callers|
          && var c := d.callers[d.winner.value];
             && d.adapter.result == Some(c.result) && Owns(c.pc)
             && (d.adapter.done <==> c.pc == Finished)
             && d.completions == if granted && c.pc != Won then 1 else 0)
    && (d.winner.None? ==> !d.adapter.done && d.completions == 0)
  }

  predicate Submitted(pc: Pc) {
    pc == Accepted || pc == Registered || pc == Returned || pc == RaisedAfter
  }

  /** Who can have seen the adapter, and who aborts. */
  predicate SubmitShape(p: Submit, granted: bool) {
    && p.aborts == (if granted && p.pc == RaisedBefore then 1 else 0)
    && (p.held ==> p.pc == Submitting || Submitted(p.pc) || p.torn)
    && (p.torn ==> p.held && (p.pc == Failing || p.pc == RaisedBefore))
    && (Submitted(p.pc) ==> p.held)
    && (p.held || p.pc == TaskCreated || p.pc == Bound || p.pc == Submitting ==> p.taskKnown)
  }

  /** What the row looks like while the grant holds it and ever after. */
  predicate RowShape(l: Ledger, grantId: string, taskId: string) {
    && (l.ending == Open <==> Holds(l.row, grantId))
    && l.settlements == (if l.ending == Open then 0 else 1)
    && (l.ending == Open ==> l.row.taskId == "" || l.row.taskId == taskId)
    && (l.ending == GivenBack ==> l.row.grantId != grantId)
    && (l.ending == UsedUp || l.ending == Lapsed ==> l.row.grantId == grantId && Closed(l.row.status))
    && (!l.touched ==> l.ending != Lapsed && l.row.status == EndStatus(l.ending))
  }

  function EndStatus(ending: Ending): Status {
    match ending
    case Open => Active
    case GivenBack => Approved
    case UsedUp => Consumed
    case Lapsed => Expired
  }

  /** What the grant's ending says about the run. */
  predicate RowTells(s: State) {
    var l := s.ledger;
    && (l.ending == GivenBack ==> s.submit.aborts == 1)
    && (l.ending == UsedUp ==> s.delivery.completions == 1)
    && (l.ending == Open && !l.failed ==>
          && s.submit.aborts == 0 && s.delivery.completions == 0
          && (s.submit.held || s.submit.pc == Bound || s.submit.pc == Submitting ==> l.row.taskId == s.taskId))
  }

  predicate Inv(s: State) {
    && s.taskId != ""
    && OneWinner(s.delivery, s.grantId != "")
    && SubmitShape(s.submit, s.grantId != "")
    && (s.delivery.callers != [] ==> s.submit.held)
    && (s.grantId == "" ==> s.ledger.settlements == 0)
    && (s.grantId != "" ==> RowShape(s.ledger, s.grantId, s.taskId) && RowTells(s))
  }

  lemma OwnerMoves(d: Delivery, i: nat, pc: CallPc, granted: bool)
    requires OneWinner(d, granted) && i < |d.callers| && Owns(d.callers[i].pc)
    requires (d.callers[i].pc == Won && pc == Completed) || (d.callers[i].pc == Completed && pc == Finished)
    ensures var m := MoveCaller(d, i, pc);
            pc == Completed ==>
              OneWinner(m.(completions := if granted then d.completions + 1 else d.completions), granted)
    ensures var m := MoveCaller(d, i, pc);
            pc == Finished ==> OneWinner(m.(adapter := d.adapter.(done := true)), granted)
  {
    var t := MoveCaller(d, i, pc);
    assert forall j | 0 <= j < |d.callers| && j != i :: t.callers[j] == d.callers[j];
  }

  lemma LockKeepsWinner(s: State, i: nat)
    requires OneWinner(s.delivery, s.grantId != "") && Enabled(s, Lock(i))
    ensures OneWinner(DeliveryStep(s, Lock(i)), s.grantId != "")
  {
    var d, t := s.delivery, DeliveryStep(s, Lock(i));
    assert t.callers[i].pc == if d.adapter.result.Some? then Dropped else Won;
    assert t.callers[i].result == d.callers[i].result;
    assert forall j | 0 <= j < |d.callers| && j != i :: t.callers[j] == d.callers[j];
    hide MoveCaller;
  }

  lemma DeliveryKeepsWinner(s: State, e: Event)
    requires OneWinner(s.delivery, s.grantId != "") && Enabled(s, e)
    ensures OneWinner(DeliveryStep(s, e), s.grantId != "")
  {
    if e.Lock? {
      LockKeepsWinner(s, e.caller);
    } else if e.CompleteGrant? {
      OwnerMoves(s.delivery, e.caller, Completed, s.grantId != "");
      hide OneWinner;
    } else if e.SetDone? {
      OwnerMoves(s.delivery, e.caller, Finished, s.grantId != "");
      hide OneWinner;
    } else if e.Deliver? {
      var d, t := s.delivery, DeliveryStep(s, e);
      assert forall j | 0 <= j < |d.callers| :: t.callers[j] == d.callers[j];
    }
  }

  lemma SubmitKeepsShape(s: State, e: Event)
    requires SubmitShape(s.submit, s.grantId != "") && Enabled(s, e)
    ensures SubmitShape(SubmitStep(s, e), s.grantId != "")
    ensures s.submit.held ==> SubmitStep(s, e).held
  {
    hide BindSucceeds;
  }

  lemma ElsewhereKeepsShape(s: State, step: Step)
    requires s.grantId != "" && RowShape(s.ledger, s.grantId, s.taskId) && IsElsewhere(step, s.grantId)
    ensures RowShape(LedgerStep(s, Elsewhere(step)), s.grantId, s.taskId)
  {
    LostStaysLost(s.ledger.row, step, s.grantId);
    if Closed(s.ledger.row.status) {
      ClosedStaysClosed(s.ledger.row, step);
    }
    HeldMayOnlyLapse(s.ledger.row, step, s.grantId);
    hide StepRow, NotReissued, Closed;
  }

  /** Nobody else can do more to a held row than close it. */
  lemma HeldMayOnlyLapse(row: Row, step: Step, grantId: string)
    requires Holds(row, grantId) ==> IsElsewhere(step, grantId)
    ensures Holds(row, grantId) ==>
              var r := StepRow(row, step);
              r.grantId == grantId && r.taskId == row.taskId && (r == row || Closed(r.status))
  {
  }

  lemma LedgerKeepsShape(s: State, e: Event)
    requires s.grantId != "" && s.taskId != "" && RowShape(s.ledger, s.grantId, s.taskId) && Enabled(s, e)
    ensures RowShape(LedgerStep(s, e), s.grantId, s.taskId)
  {
    if e.Elsewhere? {
      ElsewhereKeepsShape(s, e.step);
    }
  }

  lemma StepKeepsRowTells(s: State, e: Event)
    requires Inv(s) && Enabled(s, e) && s.grantId != ""
    ensures RowTells(Apply(s, e))
  {
    match e
    case CompleteGrant(i, fails) =>
      assert Owns(s.delivery.callers[i].pc);
    case Elsewhere(step) =>
      HeldMayOnlyLapse(s.ledger.row, step, s.grantId);
      LostStaysLost(s.ledger.row, step, s.grantId);
      hide StepRow, NotReissued, Closed;
    case _ =>
  }

  lemma StepKeepsInv(s: State, e: Event)
    requires Inv(s) && Enabled(s, e)
    ensures Inv(Apply(s, e))
  {
    DeliveryKeepsWinner(s, e);
    SubmitKeepsShape(s, e);
    if s.grantId != "" {
      LedgerKeepsShape(s, e);
      StepKeepsRowTells(s, e);
    } else {
      assert LedgerStep(s, e).settlements == 0;
    }
    assert DeliveryStep(s, e).callers != [] ==> s.submit.held;
    hide OneWinner, SubmitShape, RowTells, SubmitStep, DeliveryStep, LedgerStep, Enabled;
  }

  // -------------------------------------------------------------------- runs

  /** What no later step undoes: a stored result, the completion signal, the end of
      the grant's hold on the row, and a submission that raised. */
  predicate Later(s: State, t: State) {
    && t.grantId == s.grantId && t.taskId == s.taskId
    && (s.delivery.adapter.result.Some? ==> t.delivery.adapter.result == s.delivery.adapter.result)
    && (s.delivery.adapter.done ==> t.delivery.adapter.done)
    && (s.grantId != "" && !Holds(s.ledger.row, s.grantId) ==>
          !Holds(t.ledger.row, s.grantId) && t.ledger.ending == s.ledger.ending)
    && (s.submit.pc == RaisedBefore ==> t.submit == s.submit)
  }

  lemma StepIsLater(s: State, e: Event)
    requires Enabled(s, e)
    ensures Later(s, Apply(s, e))
  {
    if s.grantId != "" && !Holds(s.ledger.row, s.grantId) {
      RowStaysLost(s, e);
    }
    hide LedgerStep;
  }

  lemma RowStaysLost(s: State, e: Event)
    requires Enabled(s, e) && s.grantId != "" && !Holds(s.ledger.row, s.grantId)
    ensures var l := LedgerStep(s, e);
            !Holds(l.row, s.grantId) && l.ending == s.ledger.ending
  {
  }

  lemma {:induction false} RunKeepsInv(s: State, events: seq<Event>)
    requires Inv(s) && Exec(s, events).Some?
    ensures Inv(Exec(s, events).value) && Later(s, Exec(s, events).value)
    decreases |events|
  {
    if events != [] {
      StepKeepsInv(s, events[0]);
      StepIsLater(s, events[0]);
      RunKeepsInv(Apply(s, events[0]), events[1..]);
      hide Inv, Apply, Enabled;
    }
  }

  lemma StartIsSafe(grantId: string, taskId: string)
    requires taskId != ""
    ensures Inv(Start(grantId, taskId))
  {
  }

  /** The thread whose result was stored is past its completion attempt. */
  predicate WinnerAttempted(d: Delivery) {
    d.winner.Some? && d.winner.value < |d.callers| && d.callers[d.winner.value].pc != Won
  }

  /** Safety of every run, whatever the interleaving and whatever fails: abort
      and completion are each attempted at most once and the grant loses its row
      at most once; abort happens exactly when submit raised before acceptance;
      both are attempted exactly when the gateway raised after recording the
      adapter and the first result got that far; and `_done` is set only after the
      stored result's own completion attempt. */
  lemma EveryRunSettlesOnce(grantId: string, taskId: string, events: seq<Event>)
    requires taskId != "" && Exec(Start(grantId, taskId), events).Some?
    ensures var t := Exec(Start(grantId, taskId), events).value;
            && t.submit.aborts <= 1 && t.delivery.completions <= 1 && t.ledger.settlements <= 1
            && (t.submit.aborts == 1 <==> grantId != "" && t.submit.pc == RaisedBefore)
            && (t.submit.aborts == 1 && t.delivery.completions == 1 <==>
                grantId != "" && t.submit.torn && t.submit.pc == RaisedBefore && WinnerAttempted(t.delivery))
            && (t.delivery.completions == 1 ==> t.delivery.adapter.result.Some?)
            && (t.delivery.adapter.done ==>
                  t.delivery.adapter.result.Some? && (grantId != "" ==> t.delivery.completions == 1))
  {
    StartIsSafe(grantId, taskId);
    RunKeepsInv(Start(grantId, taskId), events);
    hide Exec, RowTells, Holds, Closed;
  }

  /** The first stored result is the final one: along a run it never changes,
      and it is the result of the one caller that completes the grant. */
  lemma StoredResultIsFinal(grantId: string, taskId: string, before: seq<Event>, after: seq<Event>)
    requires taskId != "" && Exec(Start(grantId, taskId), before + after).Some?
    ensures Exec(Start(grantId, taskId), before).Some?
    ensures var s := Exec(Start(grantId, taskId), before).value;
            var t := Exec(Start(grantId, taskId), before + after).value;
            && Later(s, t)
            && forall i | 0 <= i < |t.delivery.callers| && Owns(t.delivery.callers[i].pc) ::
                 t.delivery.adapter.result == Some(t.delivery.callers[i].result)
  {
    var s0 := Start(grantId, taskId);
    StartIsSafe(grantId, taskId);
    ExecConcat(s0, before, after);
    RunKeepsInv(s0, before);
    RunKeepsInv(Exec(s0, before).value, after);
    hide RowTells, RowShape, SubmitShape, Exec, Start;
  }

  lemma {:induction false} ExecConcat(s: State, before: seq<Event>, after: seq<Event>)
    ensures Exec(s, before + after) ==
            if Exec(s, before).None? then None else Exec(Exec(s, before).value, after)
    decreases |before|
  {
    hide Apply, Enabled;
    if before == [] {
      assert before + after == after;
    } else {
      assert (before + after)[0] == before[0] && (before + after)[1..] == before[1..] + after;
      if Enabled(s, before[0]) {
        ExecConcat(Apply(s, before[0]), before[1..], after);
      }
    }
  }

  /** How a granted submission ends. Raised before acceptance: aborted once and,
      unless the gateway tore the submission, no result ever arrives. Accepted:
      never aborted, even if submit itself still raises while reading back. When
      no store operation raised and the grant did not lapse, the row agrees: given
      back and never again this grant's, closed with the first result, or still
      active for the task. If moreover nobody else touched it, its status is exact. */
  lemma HowSubmissionEnds(grantId: string, taskId: string, events: seq<Event>)
    requires grantId != "" && taskId != "" && Exec(Start(grantId, taskId), events).Some?
    ensures var t := Exec(Start(grantId, taskId), events).value;
            var d, l := t.delivery, t.ledger;
            && (t.submit.pc == RaisedBefore ==> t.submit.aborts == 1 && (!t.submit.torn ==> d.callers == []))
            && (Submitted(t.submit.pc) ==> t.submit.aborts == 0)
            && (!l.failed && l.ending != Lapsed ==>
                  && (t.submit.pc == RaisedBefore && !t.submit.torn ==>
                        l.ending == GivenBack && l.row.grantId != grantId)
                  && (Submitted(t.submit.pc) && d.completions == 1 ==>
                        l.ending == UsedUp && l.row.grantId == grantId && Closed(l.row.status))
                  && (Submitted(t.submit.pc) && d.completions == 0 ==> l.row == Row(grantId, Active, taskId)))
            && (!l.touched ==> l.ending != Lapsed && l.row.status == EndStatus(l.ending))
  {
    StartIsSafe(grantId, taskId);
    RunKeepsInv(Start(grantId, taskId), events);
    hide Exec, OneWinner, Closed;
    NoCallsWithoutHolding(Exec(Start(grantId, taskId), events).value);
  }

  lemma NoCallsWithoutHolding(s: State)
    requires Inv(s)
    ensures s.submit.pc == RaisedBefore && !s.submit.torn ==> s.delivery.callers == [] && s.delivery.completions == 0
  {
  }

  /** Once the grant has lost its row it is over for good: along every longer run
      the grant never holds the row, the reason stays, and no operation of this
      grant, on any task, changes the row. */
  lemma GrantIsOverForGood(grantId: string, taskId: string, before: seq<Event>, after: seq<Event>)
    requires grantId != "" && taskId != "" && Exec(Start(grantId, taskId), before + after).Some?
    ensures Exec(Start(grantId, taskId), before).Some?
    ensures var s := Exec(Start(grantId, taskId), before).value;
            var t := Exec(Start(grantId, taskId), before + after).value;
            s.ledger.ending != Open ==>
              && t.ledger.ending == s.ledger.ending && !Holds(t.ledger.row, grantId)
              && (s.ledger.ending == GivenBack ==> t.ledger.row.grantId != grantId)
              && (s.ledger.ending == UsedUp ==> t.ledger.row.grantId == grantId && Closed(t.ledger.row.status))
              && forall op, task :: StepRow(t.ledger.row, Under(op, grantId, task)) == t.ledger.row
  {
    var s0 := Start(grantId, taskId);
    StartIsSafe(grantId, taskId);
    ExecConcat(s0, before, after);
    RunKeepsInv(s0, before);
    RunKeepsInv(Exec(s0, before).value, after);
    var t := Exec(s0, before + after).value;
    hide RowTells, OneWinner, SubmitShape, Exec, Closed;
  }

  // ------------------------------------------ runs with an unexpected outcome

  lemma RunOne(s: State, events: seq<Event>, e: Event)
    requires Exec(s, events).Some? && Enabled(Exec(s, events).value, e)
    ensures Exec(s, events + [e]) == Some(Apply(Exec(s, events).value, e))
  {
    ExecConcat(s, events, [e]);
    var t := Exec(s, events).value;
    assert [e][1..] == [];
    assert Exec(Apply(t, e), []) == Some(Apply(t, e));
    assert Exec(t, [e]) == Exec(Apply(t, e), []);
  }

  lemma ExecCons(s: State, e: Event, rest: seq<Event>)
    ensures Exec(s, [e] + rest) == if Enabled(s, e) then Exec(Apply(s, e), rest) else None
  {
    assert ([e] + rest)[1..] == rest;
  }

  lemma ExecTwo(s: State, a: Event, b: Event)
    requires Enabled(s, a) && Enabled(Apply(s, a), b)
    ensures Exec(s, [a, b]) == Some(Apply(Apply(s, a), b))
  {
    hide Enabled, Apply;
    ExecCons(s, a, [b]);
    ExecCons(Apply(s, a), b, []);
  }

  function Handoff(): seq<Event> {
    [CreateTask, BindTask(false), CallGateway, GatewayHolds]
  }

  lemma HandoffRuns(grantId: string, taskId: string)
    requires grantId != "" && taskId != ""
    ensures Exec(Start(grantId, taskId), Handoff()) ==
            Some(Start(grantId, taskId).(submit := Submit(Submitting, true, true, false, 0),
                                         ledger := Ledger(Row(grantId, Active, taskId), Open, 0, false, false)))
  {
    var s := Start(grantId, taskId);
    var bound := s.(submit := Submit(Bound, true, false, false, 0),
                    ledger := Ledger(Row(grantId, Active, taskId), Open, 0, false, false));
    BindFresh(s);
    var first, second := [CreateTask, BindTask(false)], [CallGateway, GatewayHolds];
    EnterGateway(bound);
    assert first + second == Handoff();
    hide Exec, Start;
    ExecConcat(s, first, second);
  }

  lemma BindFresh(s: State)
    requires s == Start(s.grantId, s.taskId) && s.grantId != "" && s.taskId != ""
    ensures Exec(s, [CreateTask, BindTask(false)])
            == Some(s.(submit := Submit(Bound, true, false, false, 0),
                       ledger := Ledger(Row(s.grantId, Active, s.taskId), Open, 0, false, false)))
  {
    var s1 := s.(submit := Submit(TaskCreated, true, false, false, 0));
    assert Apply(s, CreateTask) == s1;
    assert BindSucceeds(s1, false);
    ExecTwo(s, CreateTask, BindTask(false));
    hide Exec;
  }

  lemma EnterGateway(s: State)
    requires s.submit == Submit(Bound, true, false, false, 0)
    ensures Exec(s, [CallGateway, GatewayHolds]) == Some(s.(submit := Submit(Submitting, true, true, false, 0)))
  {
    assert Apply(s, CallGateway) == s.(submit := Submit(Submitting, true, false, false, 0));
    ExecTwo(s, CallGateway, GatewayHolds);
    hide Exec;
  }

  lemma TearAndAbort(s: State)
    requires s.grantId != "" && s.taskId != "" && s.submit == Submit(Submitting, true, true, false, 0)
    requires s.ledger == Ledger(Row(s.grantId, Active, s.taskId), Open, 0, false, false)
    ensures Exec(s, [GatewayRaises, AbortGrant(false)])
            == Some(s.(submit := Submit(RaisedBefore, true, true, true, 1),
                       ledger := Ledger(Row("", Approved, ""), GivenBack, 1, false, false)))
  {
    assert Apply(s, GatewayRaises) == s.(submit := Submit(Failing, true, true, true, 0));
    ExecTwo(s, GatewayRaises, AbortGrant(false));
    hide Exec;
  }

  lemma FirstResult(s: State, r: ExecutionResult)
    requires s.submit.held && s.delivery == Delivery(Adapter(None, false), [], None, 0)
    ensures Exec(s, [Deliver(r), Lock(0)])
            == Some(s.(delivery := Delivery(Adapter(Some(r), false), [Caller(Won, r)], Some(0), 0)))
  {
    var s1 := s.(delivery := s.delivery.(callers := [Caller(Entered, r)]));
    assert [] + [Caller(Entered, r)] == [Caller(Entered, r)];
    assert Apply(s, Deliver(r)) == s1;
    assert s1.delivery.callers[0 := Caller(Won, r)] == [Caller(Won, r)];
    ExecTwo(s, Deliver(r), Lock(0));
    hide Exec;
  }

  lemma CompleteAborted(s: State, r: ExecutionResult)
    requires s.grantId != "" && s.ledger == Ledger(Row("", Approved, ""), GivenBack, 1, false, false)
    requires s.delivery == Delivery(Adapter(Some(r), false), [Caller(Won, r)], Some(0), 0)
    ensures Enabled(s, CompleteGrant(0, false))
    ensures var t := Apply(s, CompleteGrant(0, false));
            t.submit == s.submit && t.ledger == s.ledger && t.delivery.completions == 1
  {
  }

  /** A submission the gateway tears (it raises after recording the adapter) can
      see both attempts; the row is still settled only once, by the abort. */
  lemma TornSubmissionAttemptsBoth(grantId: string, taskId: string, r: ExecutionResult) returns (events: seq<Event>)
    requires grantId != "" && taskId != ""
    ensures Exec(Start(grantId, taskId), events).Some?
    ensures var t := Exec(Start(grantId, taskId), events).value;
            && t.submit.aborts == 1 && t.delivery.completions == 1
            && t.ledger.settlements == 1 && t.ledger.ending == GivenBack && t.ledger.row.status == Approved
  {
    var s := Start(grantId, taskId);
    HandoffRuns(grantId, taskId);
    var s1 := Exec(s, Handoff()).value;
    TearAndAbort(s1);
    var s2 := Exec(s1, [GatewayRaises, AbortGrant(false)]).value;
    FirstResult(s2, r);
    hide Exec, Handoff;
    ExecConcat(s, Handoff(), [GatewayRaises, AbortGrant(false)]);
    events := Handoff() + [GatewayRaises, AbortGrant(false)];
    ExecConcat(s, events, [Deliver(r), Lock(0)]);
    events := events + [Deliver(r), Lock(0)];
    CompleteAborted(Exec(s, events).value, r);
    RunOne(s, events, CompleteGrant(0, false));
    hide Apply;
    events := events + [CompleteGrant(0, false)];
  }

  /** A failure while reading back makes submit raise for a task that was
      accepted; nothing is aborted and the grant stays with the task. */
  lemma ReadBackFailureRaisesWithoutAbort(grantId: string, taskId: string) returns (events: seq<Event>)
    requires grantId != "" && taskId != ""
    ensures Exec(Start(grantId, taskId), events).Some?
    ensures var t := Exec(Start(grantId, taskId), events).value;
            t.submit.pc == RaisedAfter && t.submit.aborts == 0 && t.ledger.row.status == Active
  {
    var s := Start(grantId, taskId);
    HandoffRuns(grantId, taskId);
    events := Handoff();
    hide Exec, Handoff;
    RunOne(s, events, GatewayAccepts);
    events := events + [GatewayAccepts];
    RunOne(s, events, RegisterAdapter);
    events := events + [RegisterAdapter];
    RunOne(s, events, ReadBack(true));
    events := events + [ReadBack(true)];
  }

  /** A waiter that times out can already see a result whose grant has not been
      completed: only `_done` promises the completion attempt. */
  lemma ResultIsVisibleBeforeCompletion(grantId: string, taskId: string, r: ExecutionResult)
    returns (events: seq<Event>)
    requires grantId != "" && taskId != ""
    ensures Exec(Start(grantId, taskId), events).Some?
    ensures var t := Exec(Start(grantId, taskId), events).value;
            t.delivery.adapter == Adapter(Some(r), false) && t.delivery.completions == 0
  {
    var s := Start(grantId, taskId);
    HandoffRuns(grantId, taskId);
    FirstResult(Exec(s, Handoff()).value, r);
    hide Exec, Handoff;
    ExecConcat(s, Handoff(), [Deliver(r), Lock(0)]);
    events := Handoff() + [Deliver(r), Lock(0)];
  }

  /** Everyone else stays free to move the row: one of their steps does to it what it
      does to any row, and the grant has lapsed exactly if it thereby loses the row. */
  lemma OthersMoveTheRow(s: State, step: Step)
    requires IsElsewhere(step, s.grantId) && s.grantId != ""
    ensures Enabled(s, Elsewhere(step))
    ensures var l, after := s.ledger, Apply(s, Elsewhere(step)).ledger;
            var loses := Holds(l.row, s.grantId) && !Holds(after.row, s.grantId);
            && after.row == StepRow(l.row, step)
            && after.touched == (l.touched || after.row != l.row)
            && after.settlements == (if loses then l.settlements + 1 else l.settlements)
            && after.ending == (if loses then Lapsed else l.ending)
  {
    hide StepRow, Holds;
  }
}
