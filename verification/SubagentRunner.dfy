/** The objects behind a submission: the adapter that receives the task's result
    and the runner that authorises, binds and hands the task to the gateway.
    `submit` is modelled from the point where it holds the authorization. */
module SubagentRunner {
  import opened Wrappers
  import opened GrantStore
  import G = GrantSettlement

  /** The text a reader of the deltas sees. */
  function Joined(deltas: seq<string>): string {
    if deltas == [] then "" else Joined(deltas[..|deltas| - 1]) + deltas[|deltas| - 1]
  }

  /** The rows after a result reached an adapter that holds `a`. */
  function RowsAfterResult(a: G.Adapter, raises: bool, rows: seq<Row>, grantId: string, taskId: string): seq<Row> {
    if a.result.Some? || grantId == "" || raises then rows else After(Complete, rows, grantId, taskId)
  }

  class LocalChannelAdapter {
    const store: Store
    const grantId: string
    var result: Option<G.ExecutionResult>
    var done: bool
    var outputDeltas: seq<string>

    constructor (store: Store, grantId: string)
      ensures this.store == store && this.grantId == grantId
      ensures View() == G.Adapter(None, false) && outputDeltas == []
    {
      this.store := store;
      this.grantId := grantId;
      result := None;
      done := false;
      outputDeltas := [];
    }

    function View(): G.Adapter
      reads this
    {
      G.Adapter(result, done)
    }

    /** Deliver a result. A later result is dropped without touching anything;
        the first one is stored, its grant is completed (a failure inside the
        completion is swallowed), and only then is `done` set. */
    method SendResult(taskId: string, r: G.ExecutionResult, completionRaises: bool)
      modifies this`result, this`done, store
      ensures View() == if old(result).Some? then old(View()) else G.KeepFirst(old(View()), r).(done := true)
      ensures store.rows == RowsAfterResult(old(View()), completionRaises, old(store.rows), grantId, taskId)
    {
      if result.Some? {
        return;
      }
      result := Some(r);
      if grantId != "" && !completionRaises {
        var _ := store.Perform(Complete, grantId, taskId);
      }
      done := true;
    }

    function Output(): string
      reads this
    {
      Joined(outputDeltas)
    }

    /** The text readers see grows by exactly `text`; the list keeps what it has
        and never takes an empty delta. */
    method SendOutputDelta(text: string)
      modifies this`outputDeltas
      ensures Output() == old(Output()) + text
      ensures old(outputDeltas) <= outputDeltas
      ensures forall i | |old(outputDeltas)| <= i < |outputDeltas| :: outputDeltas[i] != ""
    {
      if text != "" {
        outputDeltas := outputDeltas + [text];
        assert outputDeltas[..|outputDeltas| - 1] == old(outputDeltas);
      } else {
        assert Output() + "" == Output();
      }
    }
  }

  datatype GatewayReply = Accepts | Rejects | Raises

  /** How each fallible call of one submission turns out. */
  datatype Faults = Faults(
    resolveRaises: bool,   // agent, path, session or model resolution
    bindRaises: bool,
    gateway: GatewayReply,
    abortRaises: bool,
    readBackRaises: bool   // session lookup after acceptance
  )

  datatype SubmitError = BeforeAcceptance | AfterAcceptance

  /** The rows once binding was reached (or not). */
  function RowsAtHandoff(f: Faults, rows: seq<Row>, grantId: string, taskId: string): seq<Row> {
    if grantId == "" || f.resolveRaises || f.bindRaises then rows else After(Bind, rows, grantId, taskId)
  }

  predicate ReachesAcceptance(f: Faults, rows: seq<Row>, grantId: string, taskId: string) {
    && !f.resolveRaises && f.gateway == Accepts
    && (grantId != "" ==> !f.bindRaises && Acts(Bind, rows, grantId, taskId))
  }

  /** The rows a submission leaves behind. */
  function RowsAfterSubmit(f: Faults, rows: seq<Row>, grantId: string, taskId: string): seq<Row> {
    var bound := RowsAtHandoff(f, rows, grantId, taskId);
    if ReachesAcceptance(f, rows, grantId, taskId) || grantId == "" || f.abortRaises then bound
    else After(Abort, bound, grantId, if f.resolveRaises then "" else taskId)
  }

  class Runner {
    const store: Store
    var adapters: map<string, LocalChannelAdapter>

    constructor (store: Store)
      ensures this.store == store && adapters == map[]
    {
      this.store := store;
      adapters := map[];
    }

    /** Submit a task under a grant (`grantId` is empty when none is needed). The
        adapter is registered exactly when the gateway accepted; any failure
        before that gives the grant back, under the task's id once a task
        exists, and a failure of giving it back is swallowed. */
    method Submit(grantId: string, taskId: string, f: Faults) returns (r: Result<LocalChannelAdapter, SubmitError>)
      requires taskId != ""
      modifies this`adapters, store
      ensures r.Ok? <==> ReachesAcceptance(f, old(store.rows), grantId, taskId) && !f.readBackRaises
      ensures r.Err? && r.error == AfterAcceptance <==>
              ReachesAcceptance(f, old(store.rows), grantId, taskId) && f.readBackRaises
      ensures ReachesAcceptance(f, old(store.rows), grantId, taskId) ==>
              && taskId in adapters && fresh(adapters[taskId]) && adapters == old(adapters)[taskId := adapters[taskId]]
              && adapters[taskId].grantId == grantId && adapters[taskId].store == store
              && (r.Ok? ==> r.value == adapters[taskId])
      ensures !ReachesAcceptance(f, old(store.rows), grantId, taskId) ==> adapters == old(adapters)
      ensures store.rows == RowsAfterSubmit(f, old(store.rows), grantId, taskId)
    {
      var knownTask := "";
      var submitted := false;
      var raised := f.resolveRaises;
      var adapter: LocalChannelAdapter? := null;
      if !raised {
        knownTask := taskId;
        if grantId != "" {
          if f.bindRaises {
            raised := true;
          } else {
            var bound := store.Perform(Bind, grantId, taskId);
            raised := !bound;
          }
        }
        if !raised {
          adapter := new LocalChannelAdapter(store, grantId);
          if f.gateway == Accepts {
            submitted := true;
          } else {
            raised := true;
          }
        }
      }
      if raised {
        if grantId != "" && !submitted && !f.abortRaises {
          var _ := store.Perform(Abort, grantId, knownTask);
        }
        return Err(BeforeAcceptance);
      }
      adapters := adapters[taskId := adapter];
      if f.readBackRaises {
        return Err(AfterAcceptance);
      }
      return Ok(adapter);
    }
  }
}
