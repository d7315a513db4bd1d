/** The methods of the runner and its adapter are runs of the settlement machine:
    whatever `Submit` and `SendResult` do to the stored rows, some run does to the
    row of the grant, and ends where the method ends. */
module SubmissionRuns {
  import opened Wrappers
  import opened GrantStore
  import opened GrantSettlement
  import opened SubagentRunner

  /** Row `i` is the one the store finds for the grant. */
  predicate Finds(rows: seq<Row>, i: nat, grantId: string) {
    i < |rows| && rows[i].grantId == grantId && forall j | 0 <= j < i :: rows[j].grantId != grantId
  }

  /** The machine as a submission finds it; the row may have been touched since the
      grant was issued. */
  predicate Fresh(s: State) {
    var start := Start(s.grantId, s.taskId);
    s.submit == start.submit && s.delivery == start.delivery
  }

  predicate Binds(f: Faults, s: State) {
    s.grantId == "" || BindSucceeds(s, f.bindRaises)
  }

  /** The steps one submission takes. */
  function SubmitEvents(f: Faults, s: State): seq<Event> {
    if f.resolveRaises then [RaiseEarly, AbortGrant(f.abortRaises)]
    else if !Binds(f, s) then [CreateTask, BindTask(f.bindRaises), AbortGrant(f.abortRaises)]
    else [CreateTask, BindTask(f.bindRaises), CallGateway] + GatewayEvents(f)
  }

  function GatewayEvents(f: Faults): seq<Event> {
    match f.gateway
    case Rejects => [GatewayRejects, AbortGrant(f.abortRaises)]
    case Raises => [GatewayRaises, AbortGrant(f.abortRaises)]
    case Accepts => [GatewayHolds, GatewayAccepts, RegisterAdapter, ReadBack(f.readBackRaises)]
  }

  function EndsAt(f: Faults, rows: seq<Row>, grantId: string, taskId: string): Pc {
    if !ReachesAcceptance(f, rows, grantId, taskId) then RaisedBefore
    else if f.readBackRaises then RaisedAfter
    else Returned
  }

  lemma EarlyRun(f: Faults, s: State) returns (t: State)
    requires Fresh(s) && f.resolveRaises
    ensures Exec(s, SubmitEvents(f, s)) == Some(t)
    ensures t.submit.pc == RaisedBefore && t.ledger == OnRow(s, Abort, "", f.abortRaises)
  {
    var s1 := Apply(s, RaiseEarly);
    t := Apply(s1, AbortGrant(f.abortRaises));
    ExecTwo(s, RaiseEarly, AbortGrant(f.abortRaises));
    hide Exec;
  }

  /** Up to binding; `bound` says whether it worked. */
  lemma BindRun(f: Faults, s: State) returns (t: State)
    requires Fresh(s)
    ensures Exec(s, [CreateTask, BindTask(f.bindRaises)]) == Some(t)
    ensures t == s.(submit := s.submit.(pc := if Binds(f, s) then Bound else Failing, taskKnown := true),
                    ledger := OnRow(s, Bind, s.taskId, f.bindRaises))
  {
    var s1 := Apply(s, CreateTask);
    t := Apply(s1, BindTask(f.bindRaises));
    ExecTwo(s, CreateTask, BindTask(f.bindRaises));
    hide Exec;
  }

  lemma UnboundRun(f: Faults, s: State) returns (t: State)
    requires Fresh(s) && !f.resolveRaises && !Binds(f, s)
    ensures Exec(s, SubmitEvents(f, s)) == Some(t)
    ensures t.submit.pc == RaisedBefore
    ensures t.ledger == OnRow(s.(ledger := OnRow(s, Bind, s.taskId, f.bindRaises)), Abort, s.taskId, f.abortRaises)
  {
    var s1 := BindRun(f, s);
    t := Apply(s1, AbortGrant(f.abortRaises));
    assert SubmitEvents(f, s) == [CreateTask, BindTask(f.bindRaises)] + [AbortGrant(f.abortRaises)];
    hide Exec, Binds;
    RunOne(s, [CreateTask, BindTask(f.bindRaises)], AbortGrant(f.abortRaises));
  }

  lemma GatewayRun(f: Faults, s: State) returns (t: State)
    requires Fresh(s.(submit := Start(s.grantId, s.taskId).submit))
    requires s.submit == Submit(Submitting, true, false, false, 0)
    ensures Exec(s, GatewayEvents(f)) == Some(t)
    ensures t.submit.pc == if f.gateway != Accepts then RaisedBefore
                           else if f.readBackRaises then RaisedAfter else Returned
    ensures t.ledger == if f.gateway == Accepts then s.ledger else OnRow(s, Abort, s.taskId, f.abortRaises)
  {
    match f.gateway
    case Rejects =>
      ExecTwo(s, GatewayRejects, AbortGrant(f.abortRaises));
      t := Apply(Apply(s, GatewayRejects), AbortGrant(f.abortRaises));
      hide Exec;
    case Raises =>
      ExecTwo(s, GatewayRaises, AbortGrant(f.abortRaises));
      t := Apply(Apply(s, GatewayRaises), AbortGrant(f.abortRaises));
      hide Exec;
    case Accepts =>
      t := AcceptRun(f, s);
      hide Exec;
  }

  lemma AcceptRun(f: Faults, s: State) returns (t: State)
    requires s.submit == Submit(Submitting, true, false, false, 0)
    ensures Exec(s, [GatewayHolds, GatewayAccepts, RegisterAdapter, ReadBack(f.readBackRaises)]) == Some(t)
    ensures t.submit.pc == (if f.readBackRaises then RaisedAfter else Returned) && t.ledger == s.ledger
  {
    var last := [RegisterAdapter, ReadBack(f.readBackRaises)];
    ExecTwo(s, GatewayHolds, GatewayAccepts);
    var s2 := Apply(Apply(s, GatewayHolds), GatewayAccepts);
    ExecTwo(s2, RegisterAdapter, ReadBack(f.readBackRaises));
    t := Apply(Apply(s2, RegisterAdapter), ReadBack(f.readBackRaises));
    assert [GatewayHolds, GatewayAccepts] + last
           == [GatewayHolds, GatewayAccepts, RegisterAdapter, ReadBack(f.readBackRaises)];
    ExecConcat(s, [GatewayHolds, GatewayAccepts], last);
    hide Exec;
  }

  lemma BoundRun(f: Faults, s: State) returns (t: State)
    requires Fresh(s) && !f.resolveRaises && Binds(f, s)
    ensures Exec(s, SubmitEvents(f, s)) == Some(t)
    ensures t.submit.pc == if f.gateway != Accepts then RaisedBefore
                           else if f.readBackRaises then RaisedAfter else Returned
    ensures var bound := OnRow(s, Bind, s.taskId, f.bindRaises);
            t.ledger == if f.gateway == Accepts then bound
                        else OnRow(s.(ledger := bound), Abort, s.taskId, f.abortRaises)
  {
    var s1 := BindRun(f, s);
    var s2 := Apply(s1, CallGateway);
    t := GatewayRun(f, s2);
    var first := [CreateTask, BindTask(f.bindRaises)];
    assert SubmitEvents(f, s) == (first + [CallGateway]) + GatewayEvents(f);
    hide Exec, Binds, GatewayEvents;
    RunOne(s, first, CallGateway);
    ExecConcat(s, first + [CallGateway], GatewayEvents(f));
  }

  /** An operation on the found row, in the store and in the machine. */
  lemma SameRow(s: State, op: Operation, rows: seq<Row>, i: nat, taskId: string, raises: bool)
    requires s.grantId != "" && Finds(rows, i, s.grantId) && s.ledger.row == rows[i]
    ensures var row := OnRow(s, op, taskId, raises).row;
            && (if raises then rows else After(op, rows, s.grantId, taskId)) == rows[i := row]
            && Acts(op, rows, s.grantId, taskId) == Applies(op, rows[i], taskId)
            && (op == Bind ==> Finds(rows[i := row], i, s.grantId))
  {
    ActsOnFirst(op, rows, s.grantId, taskId, i);
    assert rows[i := rows[i]] == rows;
    hide After, Acts;
  }

  lemma EarlyIsARun(f: Faults, s: State, rows: seq<Row>, i: nat)
    requires Fresh(s) && s.grantId != "" && Finds(rows, i, s.grantId) && s.ledger.row == rows[i] && f.resolveRaises
    ensures Exec(s, SubmitEvents(f, s)).Some?
    ensures var t := Exec(s, SubmitEvents(f, s)).value;
            && t.submit.pc == EndsAt(f, rows, s.grantId, s.taskId)
            && RowsAfterSubmit(f, rows, s.grantId, s.taskId) == rows[i := t.ledger.row]
  {
    var t := EarlyRun(f, s);
    SameRow(s, Abort, rows, i, "", f.abortRaises);
    hide Exec, SubmitEvents, OnRow, After, Acts, Finds, Fresh;
  }

  lemma BindIsARun(f: Faults, s: State, rows: seq<Row>, i: nat) returns (l: Ledger, t: State)
    requires Fresh(s) && s.grantId != "" && s.taskId != "" && Finds(rows, i, s.grantId) && s.ledger.row == rows[i]
    requires !f.resolveRaises
    ensures Exec(s, SubmitEvents(f, s)) == Some(t)
    ensures l == OnRow(s, Bind, s.taskId, f.bindRaises)
    ensures Binds(f, s) <==> !f.bindRaises && Acts(Bind, rows, s.grantId, s.taskId)
    ensures RowsAtHandoff(f, rows, s.grantId, s.taskId) == rows[i := l.row]
    ensures Finds(rows[i := l.row], i, s.grantId)
    ensures t.submit.pc == if !Binds(f, s) || f.gateway != Accepts then RaisedBefore
                           else if f.readBackRaises then RaisedAfter else Returned
    ensures t.ledger == if Binds(f, s) && f.gateway == Accepts then l
                        else OnRow(s.(ledger := l), Abort, s.taskId, f.abortRaises)
  {
    SameRow(s, Bind, rows, i, s.taskId, f.bindRaises);
    assert Binds(f, s) <==> !f.bindRaises && Applies(Bind, rows[i], s.taskId);
    l := OnRow(s, Bind, s.taskId, f.bindRaises);
    hide OnRow, After, Acts, Applies, Finds;
    if Binds(f, s) {
      t := BoundRun(f, s);
    } else {
      t := UnboundRun(f, s);
    }
    hide Exec, SubmitEvents, Binds, Fresh;
  }

  /** `Submit` under a grant is the run `SubmitEvents`: it ends in the state for the
      outcome and leaves in the grant's row what the store holds afterwards. */
  lemma SubmitIsARun(f: Faults, s: State, rows: seq<Row>, i: nat)
    requires Fresh(s) && s.grantId != "" && s.taskId != "" && Finds(rows, i, s.grantId) && s.ledger.row == rows[i]
    ensures Exec(s, SubmitEvents(f, s)).Some?
    ensures var t := Exec(s, SubmitEvents(f, s)).value;
            && t.submit.pc == EndsAt(f, rows, s.grantId, s.taskId)
            && RowsAfterSubmit(f, rows, s.grantId, s.taskId) == rows[i := t.ledger.row]
  {
    if f.resolveRaises {
      EarlyIsARun(f, s, rows, i);
    } else {
      var l, t := BindIsARun(f, s, rows, i);
      hide Exec, SubmitEvents, Binds, Fresh, RowsAtHandoff;
      SameRow(s.(ledger := l), Abort, rows[i := l.row], i, s.taskId, f.abortRaises);
      hide OnRow, After, Acts, Applies, Finds;
      assert rows[i := l.row][i := t.ledger.row] == rows[i := t.ledger.row];
    }
  }

  /** Without a grant the rows are untouched on both sides. */
  lemma SubmitWithoutGrantIsARun(f: Faults, s: State, rows: seq<Row>)
    requires Fresh(s) && s.grantId == "" && s.taskId != ""
    ensures Exec(s, SubmitEvents(f, s)).Some?
    ensures var t := Exec(s, SubmitEvents(f, s)).value;
            && t.submit.pc == EndsAt(f, rows, s.grantId, s.taskId)
            && RowsAfterSubmit(f, rows, s.grantId, s.taskId) == rows && t.ledger == s.ledger
  {
    if f.resolveRaises {
      var t := EarlyRun(f, s);
    } else {
      var t := BoundRun(f, s);
    }
    hide Exec, SubmitEvents, Fresh;
  }

  function ResultEvents(s: State, result: ExecutionResult, raises: bool): seq<Event> {
    var n := |s.delivery.callers|;
    [Deliver(result), Lock(n)] + if s.delivery.adapter.result.Some? then [] else [CompleteGrant(n, raises), SetDone(n)]
  }

  lemma DeliveryRun(s: State, result: ExecutionResult, raises: bool) returns (t: State)
    requires s.submit.held
    ensures Exec(s, ResultEvents(s, result, raises)) == Some(t)
    ensures var a := s.delivery.adapter;
            && t.delivery.adapter == (if a.result.Some? then a else KeepFirst(a, result).(done := true))
            && t.ledger == if a.result.Some? then s.ledger else OnRow(s, Complete, s.taskId, raises)
  {
    var n := |s.delivery.callers|;
    var first, last := [Deliver(result), Lock(n)], [CompleteGrant(n, raises), SetDone(n)];
    var s2 := LockRun(s, result);
    if s.delivery.adapter.result.Some? {
      t := s2;
      assert first + [] == first;
    } else {
      t := CompleteRun(s2, n, raises);
      hide Exec;
      ExecConcat(s, first, last);
    }
    hide Exec;
  }

  lemma LockRun(s: State, result: ExecutionResult) returns (t: State)
    requires s.submit.held
    ensures var n := |s.delivery.callers|;
            Exec(s, [Deliver(result), Lock(n)]) == Some(t)
    ensures var a := s.delivery.adapter;
            && t.delivery.adapter == KeepFirst(a, result) && t.ledger == s.ledger
            && t.grantId == s.grantId && t.taskId == s.taskId
            && (a.result.None? ==> AtCall(t.delivery, |s.delivery.callers|, Won))
  {
    var n := |s.delivery.callers|;
    var s1 := Apply(s, Deliver(result));
    assert s1.delivery.callers[n] == Caller(Entered, result);
    t := Apply(s1, Lock(n));
    ExecTwo(s, Deliver(result), Lock(n));
    hide Exec;
  }

  lemma CompleteRun(s: State, n: nat, raises: bool) returns (t: State)
    requires AtCall(s.delivery, n, Won)
    ensures Exec(s, [CompleteGrant(n, raises), SetDone(n)]) == Some(t)
    ensures t.delivery.adapter == s.delivery.adapter.(done := true)
    ensures t.ledger == OnRow(s, Complete, s.taskId, raises)
  {
    var s1 := Apply(s, CompleteGrant(n, raises));
    assert AtCall(s1.delivery, n, Completed);
    t := Apply(s1, SetDone(n));
    hide OnRow;
    ExecTwo(s, CompleteGrant(n, raises), SetDone(n));
    hide Exec;
  }

  /** `SendResult` is the run of one delivering thread with nobody in between. */
  lemma SendResultIsARun(s: State, result: ExecutionResult, raises: bool, rows: seq<Row>, i: nat)
    requires s.submit.held && s.grantId != "" && Finds(rows, i, s.grantId) && s.ledger.row == rows[i]
    ensures Exec(s, ResultEvents(s, result, raises)).Some?
    ensures var a := s.delivery.adapter;
            var t := Exec(s, ResultEvents(s, result, raises)).value;
            && t.delivery.adapter == (if a.result.Some? then a else KeepFirst(a, result).(done := true))
            && RowsAfterResult(a, raises, rows, s.grantId, s.taskId) == rows[i := t.ledger.row]
  {
    var t := DeliveryRun(s, result, raises);
    SameRow(s, Complete, rows, i, s.taskId, raises);
    assert rows[i := rows[i]] == rows;
    hide Exec, ResultEvents, OnRow, After, Finds;
  }
}
