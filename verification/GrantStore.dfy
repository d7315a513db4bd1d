/** The stored approval rows behind workspace grants: the three operations a
    sub-agent submission performs under its grant (bind, abort, complete), and the
    steps with which the rest of the service moves a row by its request. */
module GrantStore {
  datatype Status = Pending | Approved | Active | Consumed | Expired | Denied | ProjectAllowed

  datatype Row = Row(grantId: string, status: Status, taskId: string)

  datatype Operation = Bind | Abort | Complete

  /** Whether an operation for `taskId` (empty when no task exists yet) may act
      on a row it has found. */
  predicate Applies(op: Operation, row: Row, taskId: string) {
    && row.status == Active
    && (taskId == "" || row.taskId == "" || row.taskId == taskId)
  }

  function Updated(op: Operation, row: Row, taskId: string): Row {
    match op
    case Bind => row.(taskId := taskId)
    case Abort => Row("", Approved, "")
    case Complete => row.(status := Consumed)
  }

  /** What an operation does to the row it finds. */
  function Effect(op: Operation, row: Row, taskId: string): Row {
    if Applies(op, row, taskId) then Updated(op, row, taskId) else row
  }

  /** The rows after an operation, which looks at the first row of the grant. */
  function After(op: Operation, rows: seq<Row>, grantId: string, taskId: string): seq<Row> {
    if rows == [] then []
    else if rows[0].grantId == grantId then [Effect(op, rows[0], taskId)] + rows[1..]
    else [rows[0]] + After(op, rows[1..], grantId, taskId)
  }

  predicate Acts(op: Operation, rows: seq<Row>, grantId: string, taskId: string) {
    rows != [] &&
    if rows[0].grantId == grantId then Applies(op, rows[0], taskId)
    else Acts(op, rows[1..], grantId, taskId)
  }

  class Store {
    var rows: seq<Row>

    constructor (initial: seq<Row>)
      ensures rows == initial
    {
      rows := initial;
    }

    /** One transaction: scan for the grant, act on the first row that has it. */
    method Perform(op: Operation, grantId: string, taskId: string) returns (acted: bool)
      modifies this
      ensures rows == After(op, old(rows), grantId, taskId)
      ensures acted == Acts(op, old(rows), grantId, taskId)
    {
      var i := 0;
      acted := false;
      while i < |rows|
        invariant 0 <= i <= |rows| && rows == old(rows) && !acted
        invariant forall j | 0 <= j < i :: rows[j].grantId != grantId
      {
        if rows[i].grantId == grantId {
          ActsOnFirst(op, rows, grantId, taskId, i);
          acted := Applies(op, rows[i], taskId);
          if acted {
            rows := rows[i := Updated(op, rows[i], taskId)];
          }
          return;
        }
        i := i + 1;
      }
      ActsOnNone(op, rows, grantId, taskId);
    }
  }

  lemma {:induction false} ActsOnFirst(op: Operation, rows: seq<Row>, grantId: string, taskId: string, i: nat)
    requires i < |rows| && rows[i].grantId == grantId
    requires forall j | 0 <= j < i :: rows[j].grantId != grantId
    ensures After(op, rows, grantId, taskId) == rows[i := Effect(op, rows[i], taskId)]
    ensures Acts(op, rows, grantId, taskId) == Applies(op, rows[i], taskId)
  {
    hide Effect, Applies;
    if i > 0 {
      assert forall j | 0 <= j < i - 1 :: rows[1..][j] == rows[j + 1];
      ActsOnFirst(op, rows[1..], grantId, taskId, i - 1);
    }
  }

  lemma {:induction false} ActsOnNone(op: Operation, rows: seq<Row>, grantId: string, taskId: string)
    requires forall r | r in rows :: r.grantId != grantId
    ensures After(op, rows, grantId, taskId) == rows && !Acts(op, rows, grantId, taskId)
  {
    hide Effect, Applies;
    if rows != [] {
      assert rows[0] in rows;
      ActsOnNone(op, rows[1..], grantId, taskId);
    }
  }

  /** An operation touches one row at most: the first row of the grant moves as
      `Effect` says, and every other row stays. */
  lemma {:induction false} OnlyTheGrantMoves(op: Operation, rows: seq<Row>, grantId: string, taskId: string, i: nat)
    requires i < |rows|
    ensures |After(op, rows, grantId, taskId)| == |rows|
    ensures var first := rows[i].grantId == grantId && forall j | 0 <= j < i :: rows[j].grantId != grantId;
            After(op, rows, grantId, taskId)[i] == if first then Effect(op, rows[i], taskId) else rows[i]
  {
    hide Effect;
    if rows[0].grantId != grantId && |rows| > 1 {
      var rest := rows[1..];
      OnlyTheGrantMoves(op, rest, grantId, taskId, if i == 0 then 0 else i - 1);
      if i > 0 {
        assert forall j | 1 <= j < i :: rows[j] == rest[j - 1];
        assert (forall j | 0 <= j < i - 1 :: rest[j].grantId != grantId) ==>
                 forall j | 1 <= j < i :: rows[j].grantId != grantId;
        assert forall j | 0 <= j < i - 1 :: rest[j] == rows[j + 1];
      }
    }
  }

  // ----------------------------------------------------- the rest of the service

  /** What other callers do to a row they find by its request: claim an approval
      for a new task, use one up without a task, answer the request in one of three
      ways, or sweep out what is past its time. `late` says the expiry time has
      passed, `blocked` that the path is under a denied root. */
  datatype Service =
    | Activate(grant: string, late: bool, blocked: bool)
    | UseOnce(late: bool, blocked: bool)
    | Approve(late: bool, blocked: bool)
    | Deny
    | AllowProject(late: bool, blocked: bool, entryExists: bool)
    | Sweep(late: bool)

  predicate Answered(status: Status) {
    status == Consumed || status == Denied || status == Expired
  }

  function Served(v: Service, row: Row): Row {
    match v
    case Activate(grant, late, blocked) =>
      if blocked || row.status != Approved then row
      else if late then row.(status := Expired)
      else Row(grant, Active, "")
    case UseOnce(late, blocked) =>
      if blocked || late || row.status != Approved then row else row.(status := Consumed)
    case Approve(late, blocked) =>
      if late then row.(status := Expired)
      else if blocked then row.(status := Denied)
      else if row.status == Active || row.status == ProjectAllowed || Answered(row.status) then row
      else row.(status := Approved)
    case Deny =>
      if row.status == Active || row.status == ProjectAllowed || row.status == Consumed || row.status == Expired
      then row
      else row.(status := Denied)
    case AllowProject(late, blocked, entryExists) =>
      if row.status == Active || (row.status == ProjectAllowed && entryExists) then row
      else if late then row.(status := Expired)
      else if blocked then row.(status := Denied)
      else if Answered(row.status) then row
      else row.(status := ProjectAllowed)
    case Sweep(late) =>
      if late && (row.status == Pending || row.status == Approved || row.status == Active)
      then row.(status := Expired) else row
  }

  /** Which step of the service leaves a row in which state. It becomes active only when
      an approval is claimed, and stays so unless swept out late or approved late or for
      a denied path; it is used once only as an approval, approved only from pending, and
      allowed for the project only from those two, each in time and for a path that is
      not denied. Nothing else of the row changes but in a claim. */
  lemma RowsMoveOnlySo(v: Service, row: Row)
    ensures var status := Served(v, row).status;
            && (status == Active <==>
                if row.status == Active then !(v.Sweep? && v.late) && !(v.Approve? && (v.late || v.blocked))
                else v.Activate? && row.status == Approved && !v.late && !v.blocked)
            && (status == Consumed && row.status != Consumed <==>
                v.UseOnce? && row.status == Approved && !v.late && !v.blocked)
            && (status == Approved && row.status != Approved <==>
                v.Approve? && row.status == Pending && !v.late && !v.blocked)
            && (status == ProjectAllowed && row.status != ProjectAllowed <==>
                v.AllowProject? && (row.status == Pending || row.status == Approved) && !v.late && !v.blocked)
    ensures Served(v, row) == if v.Activate? && Served(v, row).status == Active && row.status != Active
                              then Row(v.grant, Active, "") else row.(status := Served(v, row).status)
  {
  }

  /** Anything that can happen to a row: an operation under a grant, which acts
      only on a row of that grant, or a step of the service. */
  datatype Step = Under(op: Operation, grant: string, taskId: string) | Other(service: Service)

  function StepRow(row: Row, step: Step): Row {
    match step
    case Under(op, grant, taskId) => if row.grantId == grant then Effect(op, row, taskId) else row
    case Other(v) => Served(v, row)
  }

  function RunRow(row: Row, steps: seq<Step>): Row
    decreases |steps|
  {
    if steps == [] then row else RunRow(StepRow(row, steps[0]), steps[1..])
  }

  /** A row no grant can be claimed from any more. */
  predicate Closed(status: Status) {
    Answered(status) || status == ProjectAllowed
  }

  /** The row is claimed, by this grant. */
  predicate Holds(row: Row, grant: string) {
    row.status == Active && row.grantId == grant
  }

  /** Grant ids are never issued twice. */
  predicate NotReissued(step: Step, grant: string) {
    step.Other? && step.service.Activate? ==> step.service.grant != grant
  }

  lemma ClosedStaysClosed(row: Row, step: Step)
    requires Closed(row.status)
    ensures Closed(StepRow(row, step).status) && StepRow(row, step).grantId == row.grantId
  {
  }

  lemma LostStaysLost(row: Row, step: Step, grant: string)
    requires grant != "" && NotReissued(step, grant)
    ensures !Holds(row, grant) && (row.grantId == grant ==> Closed(row.status)) ==>
              var r := StepRow(row, step);
              !Holds(r, grant) && (r.grantId == grant ==> Closed(r.status))
    ensures row.grantId != grant ==> StepRow(row, step).grantId != grant
  {
  }

  lemma {:induction false} LostForever(row: Row, steps: seq<Step>, grant: string)
    requires grant != "" && !Holds(row, grant) && (row.grantId == grant ==> Closed(row.status))
    requires forall step | step in steps :: NotReissued(step, grant)
    ensures var r := RunRow(row, steps);
            && !Holds(r, grant)
            && (row.grantId == grant ==> r.grantId == grant && Closed(r.status))
            && (row.grantId != grant ==> r.grantId != grant)
    decreases |steps|
  {
    if steps != [] {
      assert steps[0] in steps;
      LostStaysLost(row, steps[0], grant);
      if row.grantId == grant {
        ClosedStaysClosed(row, steps[0]);
      }
      hide StepRow, Closed, NotReissued, Holds;
      LostForever(StepRow(row, steps[0]), steps[1..], grant);
    }
  }

  /** A grant ends once. After an abort or a completion acted on its row, whatever
      the service and other grants then do to the row (also approving and claiming
      it again), the grant never holds it and no operation under the grant changes
      it. A completed row stays closed; an aborted row never carries the grant. */
  lemma GrantEndsOnce(op: Operation, row: Row, taskId: string, steps: seq<Step>, later: Operation, laterTask: string)
    requires row.grantId != "" && op != Bind && Applies(op, row, taskId)
    requires forall step | step in steps :: NotReissued(step, row.grantId)
    ensures var r := RunRow(Effect(op, row, taskId), steps);
            && !Holds(r, row.grantId)
            && StepRow(r, Under(later, row.grantId, laterTask)) == r
            && (op == Complete ==> Closed(r.status) && r.grantId == row.grantId)
            && (op == Abort ==> r.grantId != row.grantId)
  {
    hide NotReissued;
    LostForever(Effect(op, row, taskId), steps, row.grantId);
  }

  /** An aborted row really is used again: its approval can be claimed for another
      task under a new grant. */
  lemma AbortedRowIsClaimedAgain(row: Row, taskId: string, grant: string)
    requires Applies(Abort, row, taskId)
    ensures RunRow(Effect(Abort, row, taskId), [Other(Activate(grant, false, false))]) == Row(grant, Active, "")
  {
    var steps := [Other(Activate(grant, false, false))];
    assert steps[1..] == [];
    assert RunRow(Row(grant, Active, ""), []) == Row(grant, Active, "");
  }
}
