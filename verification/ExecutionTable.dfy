// The table of workflow executions that all schedulers share
// (keep/api/models/db/workflow.py, WorkflowExecution; keep/api/core/db.py,
// create_workflow_execution and finish_workflow_execution).
module ExecutionTable {
  import opened Wrappers

  type ExecId = nat

  /** One row. `inProgress` is the status column; `isRunning` is the separate number
      the unique constraint looks at; `slot` is the two-minute period the row was
      created in. `fingerprint` is the event's; `exclusive` says that the row was
      claimed for an event under a non-parallel strategy. */
  datatype Row = Row(workflowId: string, number: nat, isRunning: nat, slot: int, inProgress: bool,
                     fingerprint: string, exclusive: bool)

  type Table = map<ExecId, Row>

  /** The key of the unique constraint. */
  function Key(r: Row): (string, nat, nat, int) {
    (r.workflowId, r.number, r.isRunning, r.slot)
  }

  predicate Taken(t: Table, r: Row, except: set<ExecId>) {
    exists id :: id in t && id !in except && Key(t[id]) == Key(r)
  }

  /** `UniqueConstraint("workflow_id", "execution_number", "is_running", "timeslot")` */
  ghost predicate Unique(t: Table) {
    forall i, j :: i in t && j in t && Key(t[i]) == Key(t[j]) ==> i == j
  }

  /** Adds a running row; None is the database's IntegrityError. */
  function Insert(t: Table, id: ExecId, workflowId: string, number: nat, slot: int,
                  fingerprint: string, exclusive: bool): (r: Option<Table>)
    ensures Unique(t) && r.Some? ==> Unique(r.value)
  {
    var row := Row(workflowId, number, 1, slot, true, fingerprint, exclusive);
    if id in t || Taken(t, row, {}) then None else Some(t[id := row])
  }

  datatype FinishResult = NotFound | Clash | Finished(table: Table)

  /** Marks an execution finished: its `isRunning` becomes `draw`, a random number. An
      unknown execution raises an error, and so does a draw that breaks the unique
      constraint. */
  function Finish(t: Table, id: Option<ExecId>, workflowId: string, draw: nat): (r: FinishResult)
    ensures Unique(t) && r.Finished? ==> Unique(r.table)
  {
    if id.None? || id.value !in t || t[id.value].workflowId != workflowId then NotFound
    else
      var row := t[id.value].(isRunning := draw, inProgress := false);
      if Taken(t, row, {id.value}) then Clash else Finished(t[id.value := row])
  }
}
