/**
 * The PostgreSQL tables the core reads and writes, held in memory: workflows, workflow steps,
 * workflow runs and workflow step-runs, with the identifier supplies (`uuidv4()` and the serial
 * id columns of `workflows` and `workflow_steps`, each its own sequence). A ghost log records every row written to the two run tables, in order.
 */
module Database {
  import opened Wrappers
  import opened Values
  import opened Models

  datatype WorkflowRow = WorkflowRow(
    id: int,
    name: string,
    description: string,
    triggerType: string,
    triggerValue: string)

  datatype StepRow = StepRow(id: int, workflowId: int, stepType: string, config: Value, order: int)

  /** A `workflow_runs` row (its key is the run id). */
  datatype RunRow = RunRow(
    workflowId: int,
    status: string,
    hasCompletedAt: bool,
    errorMessage: Option<string>)

  /** A `workflow_step_runs` row (its key is the step-run id). */
  datatype StepRunRow = StepRunRow(
    runId: Uuid,
    stepId: int,
    status: string,
    hasCompletedAt: bool,
    output: Option<Value>,
    errorMessage: Option<string>)

  /** A write to the run tables: an INSERT, or an UPDATE that sets a status. */
  datatype Write =
    | RunInserted(runId: Uuid, status: string)
    | StepRunInserted(stepRunId: Uuid, status: string)
    | RunUpdated(runId: Uuid, status: string)
    | StepRunUpdated(stepRunId: Uuid, status: string)

  class Db {
    var workflows: seq<WorkflowRow>
    var steps: seq<StepRow>
    var runs: map<Uuid, RunRow>
    var stepRuns: map<Uuid, StepRunRow>
    var nextUuid: Uuid
    var nextWorkflowId: int
    var nextStepId: int
    ghost var log: seq<Write>

    /** Every identifier in use was handed out before, so the next ones are fresh. */
    ghost predicate Valid()
      reads this
    {
      && nextWorkflowId >= 1 && nextStepId >= 1
      && (forall k :: k in runs ==> k < nextUuid)
      && (forall k :: k in stepRuns ==> k < nextUuid)
      && (forall i :: 0 <= i < |workflows| ==> 1 <= workflows[i].id < nextWorkflowId)
      && (forall i :: 0 <= i < |steps| ==> 1 <= steps[i].id < nextStepId)
    }

    constructor ()
      ensures Valid()
      ensures workflows == [] && steps == [] && runs == map[] && stepRuns == map[]
      ensures log == []
    {
      workflows := [];
      steps := [];
      runs := map[];
      stepRuns := map[];
      nextUuid := 0;
      nextWorkflowId := 1;
      nextStepId := 1;
      log := [];
    }

    /** `uuidv4()`: an identifier no row uses yet. */
    method NewUuid() returns (id: Uuid)
      requires Valid()
      modifies this`nextUuid
      ensures Valid()
      ensures id == old(nextUuid) && nextUuid == id + 1
      ensures id !in runs && id !in stepRuns
    {
      id := nextUuid;
      nextUuid := nextUuid + 1;
    }

    /** The serial id an INSERT INTO workflows ... RETURNING assigns: above every workflow's id. */
    method NewWorkflowId() returns (id: int)
      requires Valid()
      modifies this`nextWorkflowId
      ensures Valid()
      ensures id == old(nextWorkflowId) && nextWorkflowId == id + 1
      ensures id >= 1 && forall i :: 0 <= i < |workflows| ==> workflows[i].id < id
    {
      id := nextWorkflowId;
      nextWorkflowId := nextWorkflowId + 1;
    }

    /** The serial id an INSERT INTO workflow_steps ... RETURNING assigns: above every step's id. */
    method NewStepId() returns (id: int)
      requires Valid()
      modifies this`nextStepId
      ensures Valid()
      ensures id == old(nextStepId) && nextStepId == id + 1
      ensures id >= 1 && forall i :: 0 <= i < |steps| ==> steps[i].id < id
    {
      id := nextStepId;
      nextStepId := nextStepId + 1;
    }
  }
}
