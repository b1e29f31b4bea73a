/**
 * The run engine of src/services/runService.ts: matching a trigger to a workflow, creating a run
 * with one step-run per step, executing the steps strictly in order while mirroring every status
 * change of the in-memory run into the database, and retrying a failed run.
 *
 * `createRun` launches `executeRun` without awaiting it. The part of `executeRun` that runs before
 * its first `await` (setting the run to RUNNING and issuing that update) therefore happens inside
 * `createRun` and is modelled by `StartExecution`; the remainder, which runs after `createRun` has
 * returned, is `ContinueExecution`.
 */
module RunService {
  import opened Wrappers
  import opened Text
  import opened Values
  import opened Integrations
  import opened Models
  import opened Database
  import opened InputMapping
  import opened WorkflowService

  // ----- The database mirror of a run ---------------------------------------------------------

  /** `output ? JSON.stringify(output) : null`: a falsy output is stored as NULL. */
  function StoredOutput(output: Value): (r: Option<Value>)
    ensures r.Some? <==> Truthy(output)
    ensures r.Some? ==> r.value == output
  {
    if Truthy(output) then Some(output) else None
  }

  function RunRowOf(run: WorkflowRun): RunRow
    reads run
  {
    RunRow(run.workflowId, run.status, run.hasCompletedAt, run.errorMessage)
  }

  /** The row of a step-run: its output column holds the output only when that is truthy. */
  function StepRunRowOf(sr: StepRun): StepRunRow
  {
    StepRunRow(sr.workflowRunId, sr.workflowStepId, sr.status, sr.hasCompletedAt,
               if sr.output.Some? then StoredOutput(sr.output.value) else None, sr.errorMessage)
  }

  function IdsOf(steps: seq<StepRun>): (ids: seq<Uuid>)
    ensures |ids| == |steps| && forall i :: 0 <= i < |steps| ==> ids[i] == steps[i].id
  {
    seq(|steps|, i requires 0 <= i < |steps| => steps[i].id)
  }

  /**
   * The run's row and each of its step-runs' rows agree with the in-memory objects, and the
   * step-runs have distinct ids and belong to the run.
   */
  predicate MirroredRows(runRow: RunRow, runId: Uuid, steps: seq<StepRun>,
                         runs: map<Uuid, RunRow>, stepRuns: map<Uuid, StepRunRow>)
  {
    && runId in runs && runs[runId] == runRow
    && (forall i :: 0 <= i < |steps| ==>
          steps[i].workflowRunId == runId && steps[i].id in stepRuns && stepRuns[steps[i].id] == StepRunRowOf(steps[i]))
    && (forall i, j :: 0 <= i < j < |steps| ==> steps[i].id != steps[j].id)
  }

  predicate Mirrored(db: Db, run: WorkflowRun)
    reads db, run
  {
    MirroredRows(RunRowOf(run), run.id, run.steps, db.runs, db.stepRuns)
  }

  /** Writing a step-run's new state to its row keeps the mirror. */
  lemma MirrorStepUpdate(runRow: RunRow, runId: Uuid, steps: seq<StepRun>, runs: map<Uuid, RunRow>,
                         stepRuns: map<Uuid, StepRunRow>, i: nat, sr: StepRun)
    requires MirroredRows(runRow, runId, steps, runs, stepRuns)
    requires i < |steps| && sr.id == steps[i].id && sr.workflowRunId == runId
    ensures MirroredRows(runRow, runId, steps[i := sr], runs, stepRuns[sr.id := StepRunRowOf(sr)])
  {
  }

  /** Writing the run's new state to its row keeps the mirror. */
  lemma MirrorRunUpdate(runRow: RunRow, newRow: RunRow, runId: Uuid, steps: seq<StepRun>,
                        runs: map<Uuid, RunRow>, stepRuns: map<Uuid, StepRunRow>)
    requires MirroredRows(runRow, runId, steps, runs, stepRuns)
    ensures MirroredRows(newRow, runId, steps, runs[runId := newRow], stepRuns)
  {
  }

  /** `updateRunStatus`: `completed_at` is set exactly for COMPLETED and FAILED. */
  method UpdateRunStatus(db: Db, runId: Uuid, status: string, error: Option<string>)
    modifies db`runs, db`log
    ensures db.log == old(db.log) + [RunUpdated(runId, status)]
    ensures runId in old(db.runs) ==>
              db.runs == old(db.runs)[runId := old(db.runs)[runId].(status := status, hasCompletedAt := IsTerminal(status),
                                                                      errorMessage := error)]
    ensures runId !in old(db.runs) ==> db.runs == old(db.runs)
  {
    var completedAt := status == COMPLETED || status == FAILED;
    if runId in db.runs {
      db.runs := db.runs[runId := db.runs[runId].(status := status, hasCompletedAt := completedAt, errorMessage := error)];
    }
    db.log := db.log + [RunUpdated(runId, status)];
  }

  /**
   * `updateStepStatus`: updates the step-run row with that id belonging to that run; `completed_at`
   * is set exactly for COMPLETED and FAILED, and a falsy output is stored as NULL.
   */
  method UpdateStepStatus(db: Db, runId: Uuid, stepId: Uuid, status: string, output: Value, error: Option<string>)
    modifies db`stepRuns, db`log
    ensures db.log == old(db.log) + [StepRunUpdated(stepId, status)]
    ensures stepId in old(db.stepRuns) && old(db.stepRuns)[stepId].runId == runId ==>
              db.stepRuns == old(db.stepRuns)[stepId := old(db.stepRuns)[stepId].(
                status := status, hasCompletedAt := IsTerminal(status), output := StoredOutput(output), errorMessage := error)]
    ensures !(stepId in old(db.stepRuns) && old(db.stepRuns)[stepId].runId == runId) ==> db.stepRuns == old(db.stepRuns)
  {
    var completedAt := status == COMPLETED || status == FAILED;
    if stepId in db.stepRuns && db.stepRuns[stepId].runId == runId {
      db.stepRuns := db.stepRuns[stepId := db.stepRuns[stepId].(
        status := status, hasCompletedAt := completedAt, output := StoredOutput(output), errorMessage := error)];
    }
    db.log := db.log + [StepRunUpdated(stepId, status)];
  }

  // ----- What executing the steps does: the specification -------------------------------------

  /** The result of one step: its output, or the step-run's and the run's error messages. */
  datatype StepResult = Done(output: Value) | Failed(stepError: string, runError: string)

  /** The message of the TypeError raised by `JSON.stringify(undefined).substring(…)`. */
  const SUBSTRING_OF_UNDEFINED: string := "Cannot read properties of undefined (reading 'substring')"

  /** The run's error message for a failure of the step at (0-based) `stepIndex`. */
  function StepFailedMessage(stepIndex: nat, message: string): string
  {
    "Step " + NatToString(stepIndex + 1) + " failed: " + message
  }

  /**
   * The catch block: an `Error` gives its message to the step-run; anything else is reported as
   * "Unknown error" there, while the run's message renders the thrown value's `message`.
   */
  function FailureOf(stepIndex: nat, error: Thrown): StepResult
  {
    match error
    case ErrorInstance(m) => Failed(m, StepFailedMessage(stepIndex, m))
    case NonError(text) => Failed("Unknown error", StepFailedMessage(stepIndex, text))
  }

  /** The dispatch of a step with its resolved configuration. */
  function Dispatch(step: Step, outputs: Outputs, execute: Execute): Outcome
  {
    ExecuteIntegration(step.stepType, Obj(ResolveConfig(step.config, step.inputMapping, outputs)), execute)
  }

  /**
   * One step: resolve the inputs, dispatch, and either record the output or fail. The `success`
   * field of a result is never looked at; the only failure besides a thrown error is a "claude"
   * step resolving to `undefined`, whose logging then throws.
   */
  function StepOutcome(step: Step, stepIndex: nat, outputs: Outputs, execute: Execute): StepResult
  {
    match Dispatch(step, outputs, execute)
    case Threw(e) => FailureOf(stepIndex, e)
    case Returned(v) =>
      if step.stepType == "claude" && v == Undef then FailureOf(stepIndex, ErrorInstance(SUBSTRING_OF_UNDEFINED))
      else Done(v)
  }

  /** A step's outcome as a function of the step, its position and the outputs recorded so far. */
  type Outcomes = (Step, nat, Outputs) -> StepResult

  function OutcomesOf(execute: Execute): Outcomes
  {
    (step: Step, stepIndex: nat, outputs: Outputs) => StepOutcome(step, stepIndex, outputs, execute)
  }

  /**
   * The results of running the steps from `i` on: every step in order while they succeed, each
   * seeing the outputs recorded so far; a failure ends the sequence.
   */
  function RunFrom(steps: seq<Step>, i: nat, outputs: Outputs, outcome: Outcomes): (r: seq<StepResult>)
    requires i <= |steps|
    ensures |r| <= |steps| - i
    ensures forall j :: 0 <= j < |r| - 1 ==> r[j].Done?
    ensures |r| < |steps| - i ==> r != [] && r[|r| - 1].Failed?
    decreases |steps| - i
  {
    if i >= |steps| then []
    else
      match outcome(steps[i], i, outputs)
      case Failed(stepError, runError) => [Failed(stepError, runError)]
      case Done(v) => [Done(v)] + RunFrom(steps, i + 1, outputs[steps[i].id := v], outcome)
  }

  function ApplyResult(sr: StepRun, result: StepResult): StepRun
  {
    match result
    case Done(v) => sr.(status := COMPLETED, hasCompletedAt := true, output := Some(v))
    case Failed(stepError, _) => sr.(status := FAILED, hasCompletedAt := true, errorMessage := Some(stepError))
  }

  /** The step-runs after the results from index `i` on have been recorded; the others are untouched. */
  function ApplyResults(srs: seq<StepRun>, i: nat, results: seq<StepResult>): (r: seq<StepRun>)
    requires i + |results| <= |srs|
    ensures |r| == |srs|
  {
    seq(|srs|, j requires 0 <= j < |srs| => if i <= j < i + |results| then ApplyResult(srs[j], results[j - i]) else srs[j])
  }

  function FinalStatus(results: seq<StepResult>): string
  {
    if results != [] && results[|results| - 1].Failed? then FAILED else COMPLETED
  }

  function FinalError(results: seq<StepResult>): Option<string>
  {
    if results != [] && results[|results| - 1].Failed? then Some(results[|results| - 1].runError) else None
  }

  /** The writes of the execution: RUNNING then the outcome for each step, then the run's end. */
  function Writes(ids: seq<Uuid>, i: nat, runId: Uuid, results: seq<StepResult>): seq<Write>
    requires i + |results| <= |ids|
    decreases |results|
  {
    if results == [] then [RunUpdated(runId, COMPLETED)]
    else
      match results[0]
      case Done(_) =>
        [StepRunUpdated(ids[i], RUNNING), StepRunUpdated(ids[i], COMPLETED)] + Writes(ids, i + 1, runId, results[1..])
      case Failed(_, _) =>
        [StepRunUpdated(ids[i], RUNNING), StepRunUpdated(ids[i], FAILED), RunUpdated(runId, FAILED)]
  }

  // ----- Executing the steps ------------------------------------------------------------------

  lemma FinalOfCons(first: StepResult, rest: seq<StepResult>)
    requires first.Done?
    ensures FinalStatus([first] + rest) == FinalStatus(rest) && FinalError([first] + rest) == FinalError(rest)
  {
    if rest != [] {
      assert ([first] + rest)[|rest|] == rest[|rest| - 1];
    }
  }

  lemma ApplyResultsStep(srs: seq<StepRun>, i: nat, result: StepResult, rest: seq<StepResult>)
    requires i + 1 + |rest| <= |srs|
    ensures ApplyResults(srs[i := ApplyResult(srs[i], result)], i + 1, rest) == ApplyResults(srs, i, [result] + rest)
  {
    var a := ApplyResults(srs[i := ApplyResult(srs[i], result)], i + 1, rest);
    var b := ApplyResults(srs, i, [result] + rest);
    forall j | 0 <= j < |srs| ensures a[j] == b[j] {
      if i + 1 <= j < i + 1 + |rest| {
        assert ([result] + rest)[j - i] == rest[j - i - 1];
      }
    }
  }

  /**
   * A step-run's new state, assigned in memory and written with `updateStepStatus`; `output` is
   * the value passed to the update, whose stored form the new state must agree with.
   */
  method SetStepRun(db: Db, run: WorkflowRun, i: nat, sr: StepRun, output: Value)
    requires Mirrored(db, run) && i < |run.steps|
    requires sr.id == run.steps[i].id && sr.workflowRunId == run.id && sr.workflowStepId == run.steps[i].workflowStepId
    requires sr.hasCompletedAt == IsTerminal(sr.status)
    requires (if sr.output.Some? then StoredOutput(sr.output.value) else None) == StoredOutput(output)
    modifies run`steps, db`stepRuns, db`log
    ensures run.steps == old(run.steps)[i := sr] && Mirrored(db, run)
    ensures db.stepRuns == old(db.stepRuns)[sr.id := StepRunRowOf(sr)]
    ensures db.log == old(db.log) + [StepRunUpdated(sr.id, sr.status)]
  {
    MirrorStepUpdate(RunRowOf(run), run.id, run.steps, db.runs, db.stepRuns, i, sr);
    run.steps := run.steps[i := sr];
    UpdateStepStatus(db, run.id, sr.id, sr.status, output, sr.errorMessage);
  }

  /** The run marked COMPLETED, in memory and in its row. */
  method CompleteRun(db: Db, run: WorkflowRun)
    requires Mirrored(db, run) && run.errorMessage.None?
    modifies run`status, run`hasCompletedAt, db`runs, db`log
    ensures run.status == COMPLETED && run.hasCompletedAt
    ensures Mirrored(db, run) && db.runs == old(db.runs)[run.id := RunRowOf(run)]
    ensures db.log == old(db.log) + [RunUpdated(run.id, COMPLETED)]
  {
    ghost var row := RunRowOf(run);
    run.status := COMPLETED;
    run.hasCompletedAt := true;
    UpdateRunStatus(db, run.id, COMPLETED, None);
    MirrorRunUpdate(row, RunRowOf(run), run.id, run.steps, old(db.runs), db.stepRuns);
  }

  /** The run marked FAILED with `message`, in memory and in its row. */
  method FailRun(db: Db, run: WorkflowRun, message: string)
    requires Mirrored(db, run)
    modifies run`status, run`hasCompletedAt, run`errorMessage, db`runs, db`log
    ensures run.status == FAILED && run.hasCompletedAt && run.errorMessage == Some(message)
    ensures Mirrored(db, run) && db.runs == old(db.runs)[run.id := RunRowOf(run)]
    ensures db.log == old(db.log) + [RunUpdated(run.id, FAILED)]
  {
    ghost var row := RunRowOf(run);
    run.status := FAILED;
    run.hasCompletedAt := true;
    run.errorMessage := Some(message);
    UpdateRunStatus(db, run.id, FAILED, run.errorMessage);
    MirrorRunUpdate(row, RunRowOf(run), run.id, run.steps, old(db.runs), db.stepRuns);
  }

  /**
   * The end of one step: a step-run that is RUNNING is marked COMPLETED with its output, or (the
   * catch block) it and the run are marked FAILED.
   */
  method RecordResult(db: Db, run: WorkflowRun, stepIndex: nat, original: StepRun, result: StepResult)
    requires Mirrored(db, run) && stepIndex < |run.steps|
    requires IsUntouched(original) && run.steps[stepIndex] == original.(status := RUNNING)
    modifies run, db`stepRuns, db`runs, db`log
    ensures Mirrored(db, run)
    ensures run.steps == old(run.steps)[stepIndex := ApplyResult(original, result)]
    ensures db.stepRuns == old(db.stepRuns)[original.id := StepRunRowOf(ApplyResult(original, result))]
    ensures result.Done? ==> db.log == old(db.log) + [StepRunUpdated(original.id, COMPLETED)]
    ensures result.Failed? ==> db.log == old(db.log) + [StepRunUpdated(original.id, FAILED), RunUpdated(run.id, FAILED)]
    ensures result.Done? ==> run.status == old(run.status) && run.hasCompletedAt == old(run.hasCompletedAt)
                             && run.errorMessage == old(run.errorMessage) && db.runs == old(db.runs)
    ensures result.Failed? ==> run.status == FAILED && run.hasCompletedAt && run.errorMessage == Some(result.runError)
                               && db.runs == old(db.runs)[run.id := RunRowOf(run)]
  {
    match result
    case Done(output) =>
      SetStepRun(db, run, stepIndex, ApplyResult(original, result), output);
    case Failed(message, runMessage) =>
      SetStepRun(db, run, stepIndex, ApplyResult(original, result), Null);
      FailRun(db, run, runMessage);
  }

  /**
   * The part of one step that touches no row: resolve the step's configuration, call its
   * integration, and turn what it returned or threw into the step's result.
   */
  method PerformStep(step: Step, stepIndex: nat, stepOutputs: Outputs, execute: Execute) returns (result: StepResult)
    ensures result == StepOutcome(step, stepIndex, stepOutputs, execute)
  {
    var stepConfig := ResolveInputs(step, stepOutputs);
    var dispatched := ExecuteIntegration(step.stepType, Obj(stepConfig), execute);
    if dispatched.Threw? {
      result := FailureOf(stepIndex, dispatched.error);
    } else if step.stepType == "claude" && dispatched.result == Undef {
      result := FailureOf(stepIndex, ErrorInstance(SUBSTRING_OF_UNDEFINED));
    } else {
      result := Done(dispatched.result);
    }
  }

  /**
   * The body of `executeStepSequence` for one step: mark it RUNNING, resolve its inputs and
   * dispatch it; then record the outcome. Returns what happened, which is exactly `StepOutcome`.
   */
  method RunStep(db: Db, run: WorkflowRun, step: Step, stepIndex: nat, stepOutputs: Outputs, execute: Execute)
    returns (result: StepResult)
    requires Mirrored(db, run) && stepIndex < |run.steps| && IsUntouched(run.steps[stepIndex])
    modifies run, db`stepRuns, db`runs, db`log
    ensures result == StepOutcome(step, stepIndex, stepOutputs, execute)
    ensures Mirrored(db, run)
    ensures run.steps == old(run.steps)[stepIndex := ApplyResult(old(run.steps)[stepIndex], result)]
    ensures var id := old(run.steps)[stepIndex].id;
            db.stepRuns == old(db.stepRuns)[id := StepRunRowOf(run.steps[stepIndex])]
            && (result.Done? ==> db.log == old(db.log) + [StepRunUpdated(id, RUNNING), StepRunUpdated(id, COMPLETED)])
            && (result.Failed? ==>
                  db.log == old(db.log) + [StepRunUpdated(id, RUNNING), StepRunUpdated(id, FAILED), RunUpdated(run.id, FAILED)])
    ensures result.Done? ==> run.status == old(run.status) && run.hasCompletedAt == old(run.hasCompletedAt)
                             && run.errorMessage == old(run.errorMessage) && db.runs == old(db.runs)
    ensures result.Failed? ==> run.status == FAILED && run.hasCompletedAt && run.errorMessage == Some(result.runError)
                               && db.runs == old(db.runs)[run.id := RunRowOf(run)]
  {
    var stepRun := run.steps[stepIndex];
    SetStepRun(db, run, stepIndex, stepRun.(status := RUNNING), Undef);
    ghost var midLog := db.log;
    ghost var midRows := db.stepRuns;

    result := PerformStep(step, stepIndex, stepOutputs, execute);
    RecordResult(db, run, stepIndex, stepRun, result);
    assert db.stepRuns == midRows[stepRun.id := StepRunRowOf(ApplyResult(stepRun, result))];
  }

  /**
   * `executeStepSequence`: from `stepIndex` on, run each step in turn while they complete, passing
   * on the outputs recorded under the steps' ids; past the last step, complete the run.
   */
  method ExecuteStepSequence(db: Db, run: WorkflowRun, workflow: Workflow, stepIndex: nat, stepOutputs: Outputs,
                             execute: Execute)
    requires Mirrored(db, run)
    requires |run.steps| == |workflow.steps| && stepIndex <= |workflow.steps|
    requires run.errorMessage.None?
    requires forall j :: stepIndex <= j < |run.steps| ==> IsUntouched(run.steps[j])
    modifies run, db`runs, db`stepRuns, db`log
    decreases |workflow.steps| - stepIndex, 1
    ensures Mirrored(db, run)
    ensures var results := RunFrom(workflow.steps, stepIndex, stepOutputs, OutcomesOf(execute));
            && run.steps == ApplyResults(old(run.steps), stepIndex, results)
            && run.status == FinalStatus(results) && run.hasCompletedAt && run.errorMessage == FinalError(results)
            && db.log == old(db.log) + Writes(IdsOf(old(run.steps)), stepIndex, run.id, results)
    ensures db.runs == old(db.runs)[run.id := RunRowOf(run)]
    ensures OnlyRowsOf(old(db.stepRuns), db.stepRuns, IdsOf(old(run.steps)))
  {
    if stepIndex >= |workflow.steps| {
      CompleteRun(db, run);
      assert ApplyResults(old(run.steps), stepIndex, []) == old(run.steps);
      return;
    }
    ghost var ids := IdsOf(run.steps);
    var result := RunStep(db, run, workflow.steps[stepIndex], stepIndex, stepOutputs, execute);
    assert result == OutcomesOf(execute)(workflow.steps[stepIndex], stepIndex, stepOutputs);
    assert IdsOf(run.steps) == ids;
    OnlyRowOf(old(db.stepRuns), ids, stepIndex, StepRunRowOf(run.steps[stepIndex]));
    if result.Done? {
      ContinueSequence(db, run, workflow, stepIndex, stepOutputs, execute, result.output,
                       old(run.steps), old(db.log), old(db.stepRuns));
    } else {
      SequenceStops(old(run.steps), run.steps, workflow.steps, stepIndex, stepOutputs, OutcomesOf(execute), result);
    }
  }

  /**
   * The rest of `executeStepSequence` once step `stepIndex` has completed with `output`: run the
   * following steps and compose their effect with that of the completed step, whose step-runs,
   * log and step-run rows before it ran are `before`, `beforeLog` and `beforeRows`.
   */
  method ContinueSequence(db: Db, run: WorkflowRun, workflow: Workflow, stepIndex: nat, stepOutputs: Outputs,
                          execute: Execute, output: Value, ghost before: seq<StepRun>, ghost beforeLog: seq<Write>,
                          ghost beforeRows: map<Uuid, StepRunRow>)
    requires Mirrored(db, run) && run.errorMessage.None?
    requires stepIndex < |workflow.steps| && |before| == |workflow.steps|
    requires forall j :: stepIndex < j < |before| ==> IsUntouched(before[j])
    requires OutcomesOf(execute)(workflow.steps[stepIndex], stepIndex, stepOutputs) == Done(output)
    requires run.steps == before[stepIndex := ApplyResult(before[stepIndex], Done(output))]
    requires db.log == beforeLog + [StepRunUpdated(before[stepIndex].id, RUNNING), StepRunUpdated(before[stepIndex].id, COMPLETED)]
    requires OnlyRowsOf(beforeRows, db.stepRuns, IdsOf(before))
    modifies run, db`runs, db`stepRuns, db`log
    decreases |workflow.steps| - stepIndex, 0
    ensures Mirrored(db, run)
    ensures var results := RunFrom(workflow.steps, stepIndex, stepOutputs, OutcomesOf(execute));
            && run.steps == ApplyResults(before, stepIndex, results)
            && run.status == FinalStatus(results) && run.hasCompletedAt && run.errorMessage == FinalError(results)
            && db.log == beforeLog + Writes(IdsOf(before), stepIndex, run.id, results)
    ensures db.runs == old(db.runs)[run.id := RunRowOf(run)]
    ensures OnlyRowsOf(beforeRows, db.stepRuns, IdsOf(before))
  {
    ghost var ids := IdsOf(before);
    assert IdsOf(run.steps) == ids;
    var next := stepOutputs[workflow.steps[stepIndex].id := output];
    ExecuteStepSequence(db, run, workflow, stepIndex + 1, next, execute);
    SequenceStep(before, old(run.steps), ids, workflow.steps, stepIndex, stepOutputs, OutcomesOf(execute), output, run.id);
    LogStep(beforeLog, old(db.log), db.log, [StepRunUpdated(ids[stepIndex], RUNNING), StepRunUpdated(ids[stepIndex], COMPLETED)],
            Writes(ids, stepIndex + 1, run.id, RunFrom(workflow.steps, stepIndex + 1, next, OutcomesOf(execute))));
    OnlyRowsOfTrans(beforeRows, old(db.stepRuns), db.stepRuns, ids);
  }

  /** Only the rows of the step-runs `ids` changed, and no row was added or removed. */
  predicate OnlyRowsOf(before: map<Uuid, StepRunRow>, after: map<Uuid, StepRunRow>, ids: seq<Uuid>)
  {
    after.Keys == before.Keys && forall k :: k in after && k !in ids ==> after[k] == before[k]
  }

  lemma OnlyRowOf(rows: map<Uuid, StepRunRow>, ids: seq<Uuid>, i: nat, row: StepRunRow)
    requires i < |ids| && ids[i] in rows
    ensures OnlyRowsOf(rows, rows[ids[i] := row], ids)
  {
  }

  lemma OnlyRowsOfTrans(first: map<Uuid, StepRunRow>, mid: map<Uuid, StepRunRow>, last: map<Uuid, StepRunRow>, ids: seq<Uuid>)
    requires OnlyRowsOf(first, mid, ids) && OnlyRowsOf(mid, last, ids)
    ensures OnlyRowsOf(first, last, ids)
  {
  }

  lemma LogStep(oldLog: seq<Write>, midLog: seq<Write>, finalLog: seq<Write>, first: seq<Write>, later: seq<Write>)
    requires midLog == oldLog + first && finalLog == midLog + later
    ensures finalLog == oldLog + (first + later)
  {
  }

  /** A failed step ends the sequence: its result is the last one, and applying it is all that changes. */
  lemma SequenceStops(before: seq<StepRun>, after: seq<StepRun>, steps: seq<Step>, i: nat, outputs: Outputs,
                      outcome: Outcomes, result: StepResult)
    requires i < |steps| && i < |before| && outcome(steps[i], i, outputs) == result && result.Failed?
    requires after == before[i := ApplyResult(before[i], result)]
    ensures RunFrom(steps, i, outputs, outcome) == [result]
    ensures after == ApplyResults(before, i, [result])
  {
  }

  /** How one completed step and the rest of the sequence compose. */
  lemma SequenceStep(before: seq<StepRun>, mid: seq<StepRun>, ids: seq<Uuid>, steps: seq<Step>, i: nat,
                     outputs: Outputs, outcome: Outcomes, output: Value, runId: Uuid)
    requires i < |steps| && |before| == |steps| && ids == IdsOf(before) && IdsOf(mid) == ids
    requires outcome(steps[i], i, outputs) == Done(output)
    requires mid == before[i := ApplyResult(before[i], Done(output))]
    ensures var rest := RunFrom(steps, i + 1, outputs[steps[i].id := output], outcome);
            var results := RunFrom(steps, i, outputs, outcome);
            && results == [Done(output)] + rest
            && ApplyResults(mid, i + 1, rest) == ApplyResults(before, i, results)
            && FinalStatus(rest) == FinalStatus(results) && FinalError(rest) == FinalError(results)
            && Writes(ids, i, runId, results)
               == [StepRunUpdated(ids[i], RUNNING), StepRunUpdated(ids[i], COMPLETED)] + Writes(ids, i + 1, runId, rest)
  {
    var rest := RunFrom(steps, i + 1, outputs[steps[i].id := output], outcome);
    var results := [Done(output)] + rest;
    ApplyResultsStep(before, i, Done(output), rest);
    FinalOfCons(Done(output), rest);
    assert results[1..] == rest;
  }

  // ----- Creating and launching a run ---------------------------------------------------------

  /** The step-runs `createRun` builds: one per step, in step order, with consecutive fresh ids. */
  function PendingStepRuns(runId: Uuid, steps: seq<Step>, firstId: Uuid): (srs: seq<StepRun>)
    ensures |srs| == |steps|
    ensures forall i :: 0 <= i < |srs| ==>
              && IsUntouched(srs[i]) && srs[i].id == firstId + i
              && srs[i].workflowRunId == runId && srs[i].workflowStepId == steps[i].id
  {
    seq(|steps|, i requires 0 <= i < |steps| => StepRun(firstId + i, runId, steps[i].id, STEP_PENDING, false, None, None))
  }

  /** The step-run rows after inserting `srs` one after the other. */
  function InsertRows(rows: map<Uuid, StepRunRow>, srs: seq<StepRun>): map<Uuid, StepRunRow>
    decreases |srs|
  {
    if srs == [] then rows
    else InsertRows(rows, srs[..|srs| - 1])[srs[|srs| - 1].id := StepRunRowOf(srs[|srs| - 1])]
  }

  /** The INSERT of each step-run, in order. */
  function InsertWrites(srs: seq<StepRun>): (w: seq<Write>)
    ensures |w| == |srs| && forall i :: 0 <= i < |srs| ==> w[i] == StepRunInserted(srs[i].id, srs[i].status)
  {
    seq(|srs|, i requires 0 <= i < |srs| => StepRunInserted(srs[i].id, srs[i].status))
  }

  /** Inserting step-runs adds exactly their ids as keys. */
  lemma {:induction false} InsertRowsKeys(rows: map<Uuid, StepRunRow>, srs: seq<StepRun>)
    ensures InsertRows(rows, srs).Keys == rows.Keys + set i | 0 <= i < |srs| :: srs[i].id
    decreases |srs|
  {
    if srs != [] {
      var init := srs[..|srs| - 1];
      InsertRowsKeys(rows, init);
      assert forall i :: 0 <= i < |init| ==> init[i] == srs[i];
      assert (set i | 0 <= i < |srs| :: srs[i].id) == (set i | 0 <= i < |init| :: init[i].id) + {srs[|srs| - 1].id};
    }
  }

  /** Each inserted step-run with an id of its own is stored as `StepRunRowOf` gives it. */
  lemma {:induction false} InsertRowsValues(rows: map<Uuid, StepRunRow>, srs: seq<StepRun>)
    requires forall i, j :: 0 <= i < j < |srs| ==> srs[i].id != srs[j].id
    ensures forall i :: 0 <= i < |srs| ==> srs[i].id in InsertRows(rows, srs) && InsertRows(rows, srs)[srs[i].id] == StepRunRowOf(srs[i])
    decreases |srs|
  {
    if srs != [] {
      var init := srs[..|srs| - 1];
      InsertRowsValues(rows, init);
      forall i | 0 <= i < |srs| - 1
        ensures srs[i].id in InsertRows(rows, srs) && InsertRows(rows, srs)[srs[i].id] == StepRunRowOf(srs[i])
      {
        assert init[i] == srs[i];
      }
    }
  }

  /** Rows under other ids are left as they were. */
  lemma {:induction false} InsertRowsKeepsOthers(rows: map<Uuid, StepRunRow>, srs: seq<StepRun>)
    ensures forall k :: k in rows && k !in IdsOf(srs) ==> k in InsertRows(rows, srs) && InsertRows(rows, srs)[k] == rows[k]
    decreases |srs|
  {
    if srs != [] {
      var init := srs[..|srs| - 1];
      InsertRowsKeepsOthers(rows, init);
      forall k | k in rows && k !in IdsOf(srs)
        ensures k in InsertRows(rows, srs) && InsertRows(rows, srs)[k] == rows[k]
      {
        assert k != IdsOf(srs)[|srs| - 1];
        assert IdsOf(init) == IdsOf(srs)[..|srs| - 1];
      }
    }
  }

  /**
   * Inserting step-runs with distinct ids adds exactly their rows, each as `StepRunRowOf` gives it,
   * and leaves every other row as it was.
   */
  lemma InsertRowsContents(rows: map<Uuid, StepRunRow>, srs: seq<StepRun>)
    requires forall i, j :: 0 <= i < j < |srs| ==> srs[i].id != srs[j].id
    ensures InsertRows(rows, srs).Keys == rows.Keys + set i | 0 <= i < |srs| :: srs[i].id
    ensures forall i :: 0 <= i < |srs| ==> InsertRows(rows, srs)[srs[i].id] == StepRunRowOf(srs[i])
    ensures forall k :: k in rows && k !in IdsOf(srs) ==> InsertRows(rows, srs)[k] == rows[k]
  {
    InsertRowsKeys(rows, srs);
    InsertRowsValues(rows, srs);
    InsertRowsKeepsOthers(rows, srs);
  }

  /** Inserting the step-runs of a run whose row is stored mirrors them. */
  lemma InsertedRowsMirror(runRow: RunRow, runId: Uuid, srs: seq<StepRun>, runs: map<Uuid, RunRow>,
                           rows: map<Uuid, StepRunRow>)
    requires runId in runs && runs[runId] == runRow
    requires forall i :: 0 <= i < |srs| ==> srs[i].workflowRunId == runId
    requires forall i, j :: 0 <= i < j < |srs| ==> srs[i].id != srs[j].id
    ensures MirroredRows(runRow, runId, srs, runs, InsertRows(rows, srs))
  {
    InsertRowsContents(rows, srs);
    forall i | 0 <= i < |srs| ensures srs[i].id in InsertRows(rows, srs) {
      assert srs[i].id in set j | 0 <= j < |srs| :: srs[j].id;
    }
  }

  /** Inserting rows under keys below `bound` keeps every key below it. */
  lemma InsertedRowsBelow(rows: map<Uuid, StepRunRow>, srs: seq<StepRun>, bound: nat)
    requires forall k :: k in rows ==> k < bound
    requires forall i :: 0 <= i < |srs| ==> srs[i].id < bound
    requires forall i, j :: 0 <= i < j < |srs| ==> srs[i].id != srs[j].id
    ensures forall k :: k in InsertRows(rows, srs) ==> k < bound
  {
    InsertRowsContents(rows, srs);
    forall k | k in InsertRows(rows, srs) ensures k < bound {
      if k !in rows {
        var j :| 0 <= j < |srs| && srs[j].id == k;
      }
    }
  }

  /** `uuidv4()` for each step, in order: the ids of the new step-runs. */
  method BuildStepRuns(db: Db, runId: Uuid, steps: seq<Step>) returns (srs: seq<StepRun>)
    requires db.Valid()
    modifies db`nextUuid
    ensures db.Valid() && db.nextUuid == old(db.nextUuid) + |steps|
    ensures srs == PendingStepRuns(runId, steps, old(db.nextUuid))
  {
    srs := [];
    for i := 0 to |steps|
      invariant db.Valid() && db.nextUuid == old(db.nextUuid) + i
      invariant srs == PendingStepRuns(runId, steps[..i], old(db.nextUuid))
    {
      var id := db.NewUuid();
      srs := srs + [StepRun(id, runId, steps[i].id, STEP_PENDING, false, None, None)];
    }
    assert steps[..|steps|] == steps;
  }

  /** The INSERT of each of the run's step-runs, in order. */
  method InsertStepRuns(db: Db, srs: seq<StepRun>)
    modifies db`stepRuns, db`log
    ensures db.stepRuns == InsertRows(old(db.stepRuns), srs)
    ensures db.log == old(db.log) + InsertWrites(srs)
  {
    for i := 0 to |srs|
      invariant db.stepRuns == InsertRows(old(db.stepRuns), srs[..i])
      invariant db.log == old(db.log) + InsertWrites(srs[..i])
    {
      assert srs[..i + 1][..i] == srs[..i];
      db.stepRuns := db.stepRuns[srs[i].id := StepRunRowOf(srs[i])];
      db.log := db.log + [StepRunInserted(srs[i].id, srs[i].status)];
      assert InsertWrites(srs[..i + 1]) == InsertWrites(srs[..i]) + [StepRunInserted(srs[i].id, srs[i].status)];
    }
    assert srs[..|srs|] == srs;
  }

  /**
   * The part of `executeRun` before its first `await`, which runs inside `createRun`: the run is
   * set to RUNNING in memory and the update is issued.
   */
  method StartExecution(db: Db, run: WorkflowRun)
    requires Mirrored(db, run) && !run.hasCompletedAt && run.errorMessage.None?
    modifies run`status, db`runs, db`log
    ensures run.status == RUNNING
    ensures Mirrored(db, run) && db.runs == old(db.runs)[run.id := RunRowOf(run)]
    ensures db.log == old(db.log) + [RunUpdated(run.id, RUNNING)]
  {
    ghost var row := RunRowOf(run);
    run.status := RUNNING;
    UpdateRunStatus(db, run.id, RUNNING, None);
    MirrorRunUpdate(row, RunRowOf(run), run.id, run.steps, old(db.runs), db.stepRuns);
  }

  /** A run ready for the remainder of `executeRun`: mirrored, one untouched step-run per step. */
  predicate LaunchedFor(db: Db, run: WorkflowRun, workflow: Workflow)
    reads db, run
  {
    && Mirrored(db, run)
    && |run.steps| == |workflow.steps|
    && run.errorMessage.None?
    && forall j :: 0 <= j < |run.steps| ==> IsUntouched(run.steps[j])
  }

  /**
   * What `createRun(workflow)` leaves behind: a new RUNNING run for the workflow and its trigger,
   * its row and one "pending" step-run row per step inserted (and nothing else touched), and the
   * writes in the order issued.
   */
  twostate predicate Created(db: Db, new run: WorkflowRun, workflow: Workflow)
    reads db, run
  {
    && run.id == old(db.nextUuid) && db.nextUuid == old(db.nextUuid) + 1 + |workflow.steps|
    && run.workflowId == workflow.id && run.trigger == Trigger(workflow.triggerType, workflow.triggerValue)
    && run.retryOf.None?
    && run.status == RUNNING && !run.hasCompletedAt && run.errorMessage.None?
    && run.steps == PendingStepRuns(run.id, workflow.steps, run.id + 1)
    && db.runs == old(db.runs)[run.id := RunRowOf(run)]
    && db.stepRuns == InsertRows(old(db.stepRuns), run.steps)
    && db.log == old(db.log) + [RunInserted(run.id, PENDING)] + InsertWrites(run.steps) + [RunUpdated(run.id, RUNNING)]
  }

  /** The INSERT of a new run's row, then of each of its step-runs. */
  method InsertRun(db: Db, run: WorkflowRun)
    requires db.Valid() && run.id < db.nextUuid
    requires forall i :: 0 <= i < |run.steps| ==> run.steps[i].workflowRunId == run.id && run.steps[i].id < db.nextUuid
    requires forall i, j :: 0 <= i < j < |run.steps| ==> run.steps[i].id != run.steps[j].id
    modifies db`runs, db`stepRuns, db`log
    ensures db.Valid() && Mirrored(db, run)
    ensures db.runs == old(db.runs)[run.id := RunRowOf(run)]
    ensures db.stepRuns == InsertRows(old(db.stepRuns), run.steps)
    ensures db.log == old(db.log) + [RunInserted(run.id, run.status)] + InsertWrites(run.steps)
  {
    db.runs := db.runs[run.id := RunRowOf(run)];
    db.log := db.log + [RunInserted(run.id, run.status)];
    InsertStepRuns(db, run.steps);
    InsertedRowsMirror(RunRowOf(run), run.id, run.steps, db.runs, old(db.stepRuns));
    InsertedRowsBelow(old(db.stepRuns), run.steps, db.nextUuid);
  }

  /** The inserts of `createRun` for a new PENDING run, then the launch of its execution. */
  method InsertAndStart(db: Db, run: WorkflowRun)
    requires db.Valid() && run.id < db.nextUuid
    requires run.status == PENDING && !run.hasCompletedAt && run.errorMessage.None?
    requires forall i :: 0 <= i < |run.steps| ==> run.steps[i].workflowRunId == run.id && run.steps[i].id < db.nextUuid
    requires forall i, j :: 0 <= i < j < |run.steps| ==> run.steps[i].id != run.steps[j].id
    modifies run`status, db`runs, db`stepRuns, db`log
    ensures db.Valid() && Mirrored(db, run) && run.status == RUNNING
    ensures db.runs == old(db.runs)[run.id := RunRowOf(run)]
    ensures db.stepRuns == InsertRows(old(db.stepRuns), run.steps)
    ensures db.log == old(db.log) + [RunInserted(run.id, PENDING)] + InsertWrites(run.steps) + [RunUpdated(run.id, RUNNING)]
  {
    InsertRun(db, run);
    ghost var inserted := db.runs;
    StartExecution(db, run);
    assert db.runs.Keys == inserted.Keys;
  }

  /** The new run for `workflow` in memory, with a fresh id and one fresh id per step-run. */
  method NewRun(db: Db, workflow: Workflow) returns (run: WorkflowRun)
    requires db.Valid()
    modifies db`nextUuid
    ensures fresh(run) && db.Valid()
    ensures run.id == old(db.nextUuid) && db.nextUuid == old(db.nextUuid) + 1 + |workflow.steps|
    ensures run.workflowId == workflow.id && run.trigger == Trigger(workflow.triggerType, workflow.triggerValue)
    ensures run.retryOf.None? && run.status == PENDING && !run.hasCompletedAt && run.errorMessage.None?
    ensures run.steps == PendingStepRuns(run.id, workflow.steps, run.id + 1)
  {
    var runId := db.NewUuid();
    var stepRuns := BuildStepRuns(db, runId, workflow.steps);
    run := new WorkflowRun(runId, workflow.id, Trigger(workflow.triggerType, workflow.triggerValue), stepRuns);
  }

  /** `createRun(workflow)`, with `executeRun` launched and not awaited. */
  method CreateRun(db: Db, workflow: Workflow) returns (run: WorkflowRun)
    requires db.Valid()
    modifies db`runs, db`stepRuns, db`nextUuid, db`log
    ensures fresh(run) && db.Valid()
    ensures Created(db, run, workflow) && LaunchedFor(db, run, workflow)
  {
    run := NewRun(db, workflow);
    InsertAndStart(db, run);
  }

  // ----- Executing a run ----------------------------------------------------------------------

  /** The remainder of `executeRun`, after `createRun` has returned: run the steps, or complete at once. */
  method ContinueExecution(db: Db, run: WorkflowRun, workflow: Workflow, execute: Execute)
    requires LaunchedFor(db, run, workflow)
    modifies run, db`runs, db`stepRuns, db`log
    ensures Mirrored(db, run)
    ensures var results := RunFrom(workflow.steps, 0, map[], OutcomesOf(execute));
            && run.steps == ApplyResults(old(run.steps), 0, results)
            && run.status == FinalStatus(results) && run.hasCompletedAt && run.errorMessage == FinalError(results)
            && db.log == old(db.log) + Writes(IdsOf(old(run.steps)), 0, run.id, results)
    ensures db.runs == old(db.runs)[run.id := RunRowOf(run)]
    ensures OnlyRowsOf(old(db.stepRuns), db.stepRuns, IdsOf(old(run.steps)))
  {
    if |workflow.steps| == 0 {
      CompleteRun(db, run);
      assert ApplyResults(old(run.steps), 0, []) == old(run.steps);
      return;
    }
    ExecuteStepSequence(db, run, workflow, 0, map[], execute);
  }

  /** `executeRun(run, workflow)` from start to end, as when it is awaited. */
  method ExecuteRun(db: Db, run: WorkflowRun, workflow: Workflow, execute: Execute)
    requires LaunchedFor(db, run, workflow) && !run.hasCompletedAt
    modifies run, db`runs, db`stepRuns, db`log
    ensures Mirrored(db, run)
    ensures var results := RunFrom(workflow.steps, 0, map[], OutcomesOf(execute));
            && run.steps == ApplyResults(old(run.steps), 0, results)
            && run.status == FinalStatus(results) && run.hasCompletedAt && run.errorMessage == FinalError(results)
            && db.log == old(db.log) + [RunUpdated(run.id, RUNNING)] + Writes(IdsOf(old(run.steps)), 0, run.id, results)
    ensures db.runs == old(db.runs)[run.id := RunRowOf(run)]
    ensures OnlyRowsOf(old(db.stepRuns), db.stepRuns, IdsOf(old(run.steps)))
  {
    StartExecution(db, run);
    ContinueExecution(db, run, workflow, execute);
  }

  // ----- Triggering and retrying --------------------------------------------------------------

  predicate MatchesTrigger(row: WorkflowRow, triggerType: string, triggerValue: string)
  {
    row.triggerType == triggerType && row.triggerValue == triggerValue
  }

  /** The position of the first row the trigger query returns, in table order. */
  function FirstMatch(workflows: seq<WorkflowRow>, triggerType: string, triggerValue: string): (r: Option<nat>)
    ensures r.None? <==> forall i :: 0 <= i < |workflows| ==> !MatchesTrigger(workflows[i], triggerType, triggerValue)
    ensures r.Some? ==> r.value < |workflows| && MatchesTrigger(workflows[r.value], triggerType, triggerValue)
    ensures r.Some? ==> forall i :: 0 <= i < r.value ==> !MatchesTrigger(workflows[i], triggerType, triggerValue)
    decreases |workflows|
  {
    if workflows == [] then None
    else if MatchesTrigger(workflows[0], triggerType, triggerValue) then Some(0)
    else
      match FirstMatch(workflows[1..], triggerType, triggerValue)
      case None => None
      case Some(k) => Some(k + 1)
  }

  /** The workflow `triggerWorkflow` runs: the first one with that trigger, with its ordered steps. */
  function TriggeredWorkflow(workflows: seq<WorkflowRow>, stepRows: seq<StepRow>, triggerType: string,
                             triggerValue: string): (r: Option<Workflow>)
    ensures r.None? <==> forall i :: 0 <= i < |workflows| ==> !MatchesTrigger(workflows[i], triggerType, triggerValue)
    ensures r.Some? ==> r.value.triggerType == triggerType && r.value.triggerValue == triggerValue
  {
    match FirstMatch(workflows, triggerType, triggerValue)
    case None => None
    case Some(k) => Some(LoadWorkflow(workflows[k], stepRows))
  }

  /** `triggerWorkflow(type, value)`: `null` when no workflow has that trigger, else a new run. */
  method TriggerWorkflow(db: Db, triggerType: string, triggerValue: string) returns (run: Option<WorkflowRun>)
    requires db.Valid()
    modifies db`runs, db`stepRuns, db`nextUuid, db`log
    ensures db.Valid()
    ensures var workflow := TriggeredWorkflow(db.workflows, db.steps, triggerType, triggerValue);
            && (run.None? <==> workflow.None?)
            && (run.None? ==> unchanged(db))
            && (run.Some? ==> fresh(run.value) && Created(db, run.value, workflow.value) && LaunchedFor(db, run.value, workflow.value))
  {
    var workflow := TriggeredWorkflow(db.workflows, db.steps, triggerType, triggerValue);
    if workflow.None? {
      return None;
    }
    var created := CreateRun(db, workflow.value);
    run := Some(created);
  }

  /** What `retryWorkflowRun` gives back: `null`, the error it throws, or the new run. */
  datatype RetryResult = RunNotFound | Rejected(message: string) | Retried(run: WorkflowRun)

  /** A new run of `workflow` beside the stored run `runId`, which is left as it is. */
  method RerunWorkflow(db: Db, runId: Uuid, workflow: Workflow) returns (run: WorkflowRun)
    requires db.Valid() && runId in db.runs
    modifies db`runs, db`stepRuns, db`nextUuid, db`log
    ensures fresh(run) && db.Valid()
    ensures Created(db, run, workflow) && LaunchedFor(db, run, workflow)
    ensures run.id != runId && runId in db.runs && db.runs[runId] == old(db.runs)[runId]
  {
    assert runId < db.nextUuid;
    run := CreateRun(db, workflow);
  }

  /**
   * `retryWorkflowRun(runId)`: only a stored FAILED run whose workflow still exists is retried, by
   * a new run of that workflow from its first step; the failed run is left as it is.
   */
  method RetryWorkflowRun(db: Db, runId: Uuid) returns (r: RetryResult)
    requires db.Valid()
    modifies db`runs, db`stepRuns, db`nextUuid, db`log
    ensures db.Valid()
    ensures r.RunNotFound? <==> runId !in old(db.runs)
    ensures runId in old(db.runs) && old(db.runs)[runId].status != FAILED ==>
              r == Rejected("Cannot retry run with status " + old(db.runs)[runId].status)
    ensures runId in old(db.runs) && old(db.runs)[runId].status == FAILED
            && GetWorkflow(db.workflows, db.steps, old(db.runs)[runId].workflowId).None? ==>
              r == Rejected("Workflow " + IntToString(old(db.runs)[runId].workflowId) + " not found")
    ensures !r.Retried? ==> unchanged(db)
    ensures r.Retried? ==>
              && runId in old(db.runs) && old(db.runs)[runId].status == FAILED
              && var workflow := GetWorkflow(db.workflows, db.steps, old(db.runs)[runId].workflowId);
              && workflow.Some? && workflow.value.id == old(db.runs)[runId].workflowId
              && fresh(r.run) && Created(db, r.run, workflow.value) && LaunchedFor(db, r.run, workflow.value)
              && r.run.id != runId && runId in db.runs && db.runs[runId] == old(db.runs)[runId]
  {
    if runId !in db.runs {
      return RunNotFound;
    }
    var row := db.runs[runId];
    if row.status != FAILED {
      return Rejected("Cannot retry run with status " + row.status);
    }
    var workflow := GetWorkflow(db.workflows, db.steps, row.workflowId);
    if workflow.None? {
      return Rejected("Workflow " + IntToString(row.workflowId) + " not found");
    }
    var created := RerunWorkflow(db, runId, workflow.value);
    r := Retried(created);
  }

  // ----- Properties of an execution -----------------------------------------------------------

  /** The status a result gives its step-run. */
  function StatusOf(result: StepResult): string
  {
    if result.Done? then COMPLETED else FAILED
  }

  /**
   * `w` lists the writes of `results` from step `i` on: step `i + k` is set RUNNING at position
   * `2k` and to its outcome at `2k + 1`, and the last write gives the run its final status.
   */
  predicate WritesShaped(w: seq<Write>, ids: seq<Uuid>, i: nat, runId: Uuid, results: seq<StepResult>)
    requires i + |results| <= |ids|
  {
    && |w| == 2 * |results| + 1
    && (forall k :: 0 <= k < |results| ==>
          w[2 * k] == StepRunUpdated(ids[i + k], RUNNING) && w[2 * k + 1] == StepRunUpdated(ids[i + k], StatusOf(results[k])))
    && w[2 * |results|] == RunUpdated(runId, FinalStatus(results))
  }

  lemma WritesShapedCons(tail: seq<Write>, ids: seq<Uuid>, i: nat, runId: Uuid, first: StepResult, rest: seq<StepResult>)
    requires i + 1 + |rest| <= |ids| && first.Done?
    requires WritesShaped(tail, ids, i + 1, runId, rest)
    ensures WritesShaped([StepRunUpdated(ids[i], RUNNING), StepRunUpdated(ids[i], COMPLETED)] + tail, ids, i, runId, [first] + rest)
  {
    var results := [first] + rest;
    var w := [StepRunUpdated(ids[i], RUNNING), StepRunUpdated(ids[i], COMPLETED)] + tail;
    FinalOfCons(first, rest);
    forall k | 1 <= k < |results|
      ensures w[2 * k] == StepRunUpdated(ids[i + k], RUNNING) && w[2 * k + 1] == StepRunUpdated(ids[i + k], StatusOf(results[k]))
    {
      assert w[2 * k] == tail[2 * (k - 1)] && w[2 * k + 1] == tail[2 * (k - 1) + 1];
      assert results[k] == rest[k - 1];
    }
    assert w[2 * |results|] == tail[2 * |rest|];
  }

  /** The writes of an execution whose every result but the last completed are exactly in that shape. */
  lemma {:induction false} WritesShape(ids: seq<Uuid>, i: nat, runId: Uuid, results: seq<StepResult>)
    requires i + |results| <= |ids|
    requires forall k :: 0 <= k < |results| - 1 ==> results[k].Done?
    ensures WritesShaped(Writes(ids, i, runId, results), ids, i, runId, results)
    decreases |results|
  {
    if results != [] && results[0].Done? {
      var rest := results[1..];
      WritesShape(ids, i + 1, runId, rest);
      assert results == [results[0]] + rest;
      WritesShapedCons(Writes(ids, i + 1, runId, rest), ids, i, runId, results[0], rest);
    }
  }

  /** The outputs recorded after the first `j` completed results, keyed by their steps' ids. */
  function OutputsBefore(outputs: Outputs, steps: seq<Step>, i: nat, results: seq<StepResult>, j: nat): Outputs
    requires j <= |results| && i + j <= |steps|
    requires forall k :: 0 <= k < j ==> results[k].Done?
    decreases j
  {
    if j == 0 then outputs
    else OutputsBefore(outputs, steps, i, results, j - 1)[steps[i + j - 1].id := results[j - 1].output]
  }

  /** Recording the first output up front is the same as recording it first in the sequence. */
  lemma {:induction false} OutputsBeforeShift(outputs: Outputs, steps: seq<Step>, i: nat, results: seq<StepResult>, j: nat)
    requires 1 <= j <= |results| && i + j <= |steps|
    requires forall k :: 0 <= k < j ==> results[k].Done?
    ensures OutputsBefore(outputs[steps[i].id := results[0].output], steps, i + 1, results[1..], j - 1)
            == OutputsBefore(outputs, steps, i, results, j)
    decreases j
  {
    if j > 1 {
      OutputsBeforeShift(outputs, steps, i, results, j - 1);
      assert results[1..][j - 2] == results[j - 1];
    }
  }

  /**
   * Each of `r` is the outcome of its step given the outputs of every step that completed before
   * it, recorded under those steps' ids in order (a later step with the same id overrides an
   * earlier one).
   */
  predicate Stepwise(r: seq<StepResult>, steps: seq<Step>, i: nat, outputs: Outputs, outcome: Outcomes)
    requires i + |r| <= |steps| && forall k :: 0 <= k < |r| - 1 ==> r[k].Done?
  {
    forall j :: 0 <= j < |r| ==> r[j] == outcome(steps[i + j], i + j, OutputsBefore(outputs, steps, i, r, j))
  }

  lemma StepwiseCons(rest: seq<StepResult>, steps: seq<Step>, i: nat, outputs: Outputs, outcome: Outcomes, v: Value)
    requires i + 1 + |rest| <= |steps| && forall k :: 0 <= k < |rest| - 1 ==> rest[k].Done?
    requires outcome(steps[i], i, outputs) == Done(v)
    requires Stepwise(rest, steps, i + 1, outputs[steps[i].id := v], outcome)
    ensures Stepwise([Done(v)] + rest, steps, i, outputs, outcome)
  {
    var r := [Done(v)] + rest;
    forall j | 1 <= j < |r|
      ensures r[j] == outcome(steps[i + j], i + j, OutputsBefore(outputs, steps, i, r, j))
    {
      assert r[j] == rest[j - 1] && rest == r[1..];
      OutputsBeforeShift(outputs, steps, i, r, j);
    }
  }

  /** The results of a sequence arise step by step, each from the outputs recorded before it. */
  lemma {:induction false} RunFromStepwise(steps: seq<Step>, i: nat, outputs: Outputs, outcome: Outcomes)
    requires i <= |steps|
    ensures Stepwise(RunFrom(steps, i, outputs, outcome), steps, i, outputs, outcome)
    decreases |steps| - i
  {
    if i < |steps| && outcome(steps[i], i, outputs).Done? {
      var v := outcome(steps[i], i, outputs).output;
      var rest := RunFrom(steps, i + 1, outputs[steps[i].id := v], outcome);
      assert RunFrom(steps, i, outputs, outcome) == [Done(v)] + rest;
      RunFromStepwise(steps, i + 1, outputs[steps[i].id := v], outcome);
      StepwiseCons(rest, steps, i, outputs, outcome, v);
    }
  }

  /**
   * A step fails exactly when its dispatch throws, or when it is a "claude" step whose result is
   * `undefined`; the step-run then carries the `Error`'s message (or "Unknown error") and the run
   * "Step <n> failed: …" with the step's 1-based position.
   */
  lemma StepOutcomeCases(step: Step, stepIndex: nat, outputs: Outputs, execute: Execute)
    ensures var d := Dispatch(step, outputs, execute);
            var r := StepOutcome(step, stepIndex, outputs, execute);
            && (r.Failed? <==> d.Threw? || (step.stepType == "claude" && d == Returned(Undef)))
            && (r.Done? ==> d == Returned(r.output))
            && (d.Threw? && d.error.ErrorInstance? ==> r.stepError == d.error.message)
            && (d.Threw? && d.error.NonError? ==> r.stepError == "Unknown error")
            && (d.Threw? && d.error.ErrorInstance? ==> r.runError == StepFailedMessage(stepIndex, d.error.message))
            && (d.Threw? && d.error.NonError? ==> r.runError == StepFailedMessage(stepIndex, d.error.messageText))
            && (d.Returned? && r.Failed? ==>
                  r.stepError == SUBSTRING_OF_UNDEFINED && r.runError == StepFailedMessage(stepIndex, SUBSTRING_OF_UNDEFINED))
            && (r.Failed? ==> StartsWith(r.runError, "Step " + NatToString(stepIndex + 1) + " failed: "))
  {
  }

  /**
   * Whatever an integration returns, a reported failure (`success: false`) included, completes
   * its step, unless it is the `undefined` result of a "claude" step; an unregistered step type
   * therefore completes with the unknown-type result as its output.
   */
  lemma ReturnedResultCompletes(step: Step, stepIndex: nat, outputs: Outputs, execute: Execute)
    ensures Dispatch(step, outputs, execute).Returned? && !(step.stepType == "claude" && Dispatch(step, outputs, execute).result == Undef)
            ==> StepOutcome(step, stepIndex, outputs, execute) == Done(Dispatch(step, outputs, execute).result)
    ensures step.stepType !in Registry && step.stepType !in InheritedNames ==>
              StepOutcome(step, stepIndex, outputs, execute) == Done(UnknownTypeResult(step.stepType))
  {
  }

  /**
   * A step whose type names a property inherited from `Object.prototype` finds no integration
   * behind it and fails with the TypeError of calling an undefined `execute`.
   */
  lemma InheritedTypeFails(step: Step, stepIndex: nat, outputs: Outputs, execute: Execute)
    requires step.stepType in InheritedNames
    ensures StepOutcome(step, stepIndex, outputs, execute)
         == Failed(NOT_A_FUNCTION, StepFailedMessage(stepIndex, NOT_A_FUNCTION))
  {
    RegistryOwnsItsTags();
    assert step.stepType !in Registry;
  }

  /** Every failure's run message names the failed step's 1-based position. */
  ghost predicate NamesFailedStep(outcome: Outcomes)
  {
    forall step: Step, stepIndex: nat, outputs: Outputs :: outcome(step, stepIndex, outputs).Failed? ==>
      StartsWith(outcome(step, stepIndex, outputs).runError, "Step " + NatToString(stepIndex + 1) + " failed: ")
  }

  /** The run's message for a failed step names the step's 1-based position. */
  lemma ExecutorNamesFailedStep(execute: Execute)
    ensures NamesFailedStep(OutcomesOf(execute))
  {
    forall step, stepIndex: nat, outputs
      ensures OutcomesOf(execute)(step, stepIndex, outputs).Failed? ==>
                StartsWith(OutcomesOf(execute)(step, stepIndex, outputs).runError, "Step " + NatToString(stepIndex + 1) + " failed: ")
    {
      StepOutcomeCases(step, stepIndex, outputs, execute);
    }
  }

  /** A failed sequence from step `i` on reports the 1-based position of the step that failed. */
  lemma {:induction false} FailureNamesStepFrom(steps: seq<Step>, i: nat, outputs: Outputs, outcome: Outcomes)
    requires i <= |steps| && NamesFailedStep(outcome)
    ensures var results := RunFrom(steps, i, outputs, outcome);
            FinalStatus(results) == FAILED ==>
              && FinalError(results).Some?
              && StartsWith(FinalError(results).value, "Step " + NatToString(i + |results|) + " failed: ")
    decreases |steps| - i
  {
    if i < |steps| {
      var first := outcome(steps[i], i, outputs);
      if first.Done? {
        var rest := RunFrom(steps, i + 1, outputs[steps[i].id := first.output], outcome);
        assert RunFrom(steps, i, outputs, outcome) == [first] + rest;
        FailureNamesStepFrom(steps, i + 1, outputs[steps[i].id := first.output], outcome);
        FinalOfCons(first, rest);
      } else {
        assert RunFrom(steps, i, outputs, outcome) == [first];
      }
    }
  }

  /**
   * Recording a run of results (completions ending in at most one failure, which every shorter
   * run ends in) over untouched step-runs.
   */
  lemma AppliedShape(srs: seq<StepRun>, results: seq<StepResult>)
    requires |results| <= |srs|
    requires forall j :: 0 <= j < |srs| ==> IsUntouched(srs[j])
    requires forall j :: 0 <= j < |results| - 1 ==> results[j].Done?
    requires |results| < |srs| ==> results != [] && results[|results| - 1].Failed?
    ensures var after := ApplyResults(srs, 0, results);
            && (forall j :: 0 <= j < |results| - 1 ==> after[j].status == COMPLETED)
            && (forall j :: |results| <= j < |srs| ==> after[j] == srs[j] && after[j].status == STEP_PENDING)
            && (FinalStatus(results) == COMPLETED <==> forall j :: 0 <= j < |srs| ==> after[j].status == COMPLETED)
            && (FinalStatus(results) == FAILED ==>
                  && after[|results| - 1].status == FAILED
                  && after[|results| - 1].errorMessage == Some(results[|results| - 1].stepError)
                  && (forall j :: 0 <= j < |srs| && j != |results| - 1 ==> after[j].status != FAILED))
  {
    var after := ApplyResults(srs, 0, results);
    if FinalStatus(results) == FAILED {
      assert after[|results| - 1].status == FAILED;
    }
  }

  /**
   * The step-runs after an execution of untouched ones: a prefix COMPLETED, then at most one
   * FAILED one, then the rest still "pending". The run is COMPLETED exactly when every step-run is,
   * and a FAILED run names the failed step's 1-based position in its message (as every outcome
   * of the executor does, by `ExecutorNamesFailedStep`).
   */
  lemma ExecutionShape(srs: seq<StepRun>, steps: seq<Step>, outputs: Outputs, outcome: Outcomes)
    requires |srs| == |steps| && NamesFailedStep(outcome)
    requires forall j :: 0 <= j < |srs| ==> IsUntouched(srs[j])
    ensures var results := RunFrom(steps, 0, outputs, outcome);
            var after := ApplyResults(srs, 0, results);
            && (forall j :: 0 <= j < |results| - 1 ==> after[j].status == COMPLETED)
            && (forall j :: |results| <= j < |srs| ==> after[j] == srs[j] && after[j].status == STEP_PENDING)
            && (FinalStatus(results) == COMPLETED <==> forall j :: 0 <= j < |srs| ==> after[j].status == COMPLETED)
            && (FinalStatus(results) == FAILED ==>
                  && after[|results| - 1].status == FAILED
                  && after[|results| - 1].errorMessage == Some(results[|results| - 1].stepError)
                  && (forall j :: 0 <= j < |srs| && j != |results| - 1 ==> after[j].status != FAILED)
                  && FinalError(results).Some?
                  && StartsWith(FinalError(results).value, "Step " + NatToString(|results|) + " failed: "))
  {
    AppliedShape(srs, RunFrom(steps, 0, outputs, outcome));
    FailureNamesStepFrom(steps, 0, outputs, outcome);
  }

  /**
   * The text after "Step <n> failed: " in the run's message for a failed dispatch: the thrown
   * value's `message`, or, for a "claude" step that resolved to `undefined`, the message of the
   * TypeError its logging raises.
   */
  function FailureText(d: Outcome): string
  {
    match d
    case Threw(ErrorInstance(m)) => m
    case Threw(NonError(text)) => text
    case Returned(_) => SUBSTRING_OF_UNDEFINED
  }

  /**
   * The message of a failed execution in full: "Step <n> failed: " for the last step attempted,
   * followed by its error's text, that step having seen the outputs recorded before it.
   */
  lemma FailedRunMessage(steps: seq<Step>, outputs: Outputs, execute: Execute)
    ensures var results := RunFrom(steps, 0, outputs, OutcomesOf(execute));
            FinalStatus(results) == FAILED ==>
              var k := |results| - 1;
              var d := Dispatch(steps[k], OutputsBefore(outputs, steps, 0, results, k), execute);
              && (d.Returned? ==> steps[k].stepType == "claude" && d.result == Undef)
              && FinalError(results) == Some(StepFailedMessage(k, FailureText(d)))
  {
    var results := RunFrom(steps, 0, outputs, OutcomesOf(execute));
    if FinalStatus(results) == FAILED {
      var k := |results| - 1;
      LastResultStepwise(steps, outputs, OutcomesOf(execute));
      FinalStepMessage(steps[k], k, OutputsBefore(outputs, steps, 0, results, k), execute, results[k]);
    }
  }

  /** The last result of a failed sequence is its step's outcome on the outputs recorded before it. */
  lemma LastResultStepwise(steps: seq<Step>, outputs: Outputs, outcome: Outcomes)
    requires FinalStatus(RunFrom(steps, 0, outputs, outcome)) == FAILED
    ensures var results := RunFrom(steps, 0, outputs, outcome);
            var k := |results| - 1;
            && results[k] == outcome(steps[k], k, OutputsBefore(outputs, steps, 0, results, k))
            && FinalError(results) == Some(results[k].runError)
  {
    var results := RunFrom(steps, 0, outputs, outcome);
    RunFromStepwise(steps, 0, outputs, outcome);
    assert results[|results| - 1]
        == outcome(steps[0 + (|results| - 1)], 0 + (|results| - 1), OutputsBefore(outputs, steps, 0, results, |results| - 1));
  }

  /** The run message of one failed step. */
  lemma FinalStepMessage(step: Step, stepIndex: nat, outputs: Outputs, execute: Execute, r: StepResult)
    requires r == StepOutcome(step, stepIndex, outputs, execute) && r.Failed?
    ensures var d := Dispatch(step, outputs, execute);
            && (d.Returned? ==> step.stepType == "claude" && d.result == Undef)
            && r.runError == StepFailedMessage(stepIndex, FailureText(d))
  {
    StepOutcomeCases(step, stepIndex, outputs, execute);
  }
}
