/**
 * The records of src/models: workflows and their steps as values, step-runs as values owned by
 * their run, and the run itself as an object whose fields the engine updates in place.
 */
module Models {
  import opened Wrappers
  import opened Values

  /** Identifiers produced by `uuidv4()`; the model draws them from a counter. */
  type Uuid = nat

  /** The `RunStatus` enum. */
  const PENDING: string := "PENDING"
  const RUNNING: string := "RUNNING"
  const COMPLETED: string := "COMPLETED"
  const FAILED: string := "FAILED"

  /** The status step-runs are created with: a lower-case literal, not a member of the enum. */
  const STEP_PENDING: string := "pending"

  predicate IsTerminal(status: string)
  {
    status == COMPLETED || status == FAILED
  }

  datatype Trigger = Trigger(triggerType: string, triggerValue: string)

  /**
   * A step definition. `inputMapping` maps a configuration key to a reference
   * "<step id>:<dot path>" or to a literal; it is `None` for every step read back from the
   * database, which has no column for it.
   */
  datatype Step = Step(
    id: int,
    workflowId: int,
    stepType: string,
    config: Value,
    inputMapping: Option<map<string, Value>>,
    order: int)

  /** A workflow as the engine receives it: its row and its steps in execution order. */
  datatype Workflow = Workflow(
    id: int,
    name: string,
    description: string,
    triggerType: string,
    triggerValue: string,
    steps: seq<Step>)

  /** One attempt of one step. Timestamps are abstracted to whether `completed_at` is set. */
  datatype StepRun = StepRun(
    id: Uuid,
    workflowRunId: Uuid,
    workflowStepId: int,
    status: string,
    hasCompletedAt: bool,
    output: Option<Value>,
    errorMessage: Option<string>)

  /** A freshly created step-run: "pending", nothing recorded yet. */
  predicate IsUntouched(sr: StepRun)
  {
    sr.status == STEP_PENDING && !sr.hasCompletedAt && sr.output.None? && sr.errorMessage.None?
  }

  /**
   * One execution attempt of a workflow: the object `createRun` returns and the execution then
   * keeps updating (status, completion, error message, and its step-runs).
   */
  class WorkflowRun {
    const id: Uuid
    const workflowId: int
    const trigger: Trigger
    /** Declared by the record type but never assigned by the engine. */
    const retryOf: Option<Uuid>
    var status: string
    var hasCompletedAt: bool
    var errorMessage: Option<string>
    var steps: seq<StepRun>

    constructor (id: Uuid, workflowId: int, trigger: Trigger, steps: seq<StepRun>)
      ensures this.id == id && this.workflowId == workflowId && this.trigger == trigger
      ensures this.steps == steps && retryOf == None
      ensures status == PENDING && !hasCompletedAt && errorMessage == None
    {
      this.id := id;
      this.workflowId := workflowId;
      this.trigger := trigger;
      this.retryOf := None;
      this.status := PENDING;
      this.hasCompletedAt := false;
      this.errorMessage := None;
      this.steps := steps;
    }
  }
}
