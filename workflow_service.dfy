/**
 * The parts of src/services/workflowService.ts the engine depends on: loading a workflow with its
 * steps ordered by `step_order`, the execution-time estimate, the default trigger derived from
 * the workflow's name, and workflow creation (which stores the inferred steps, and only those).
 */
module WorkflowService {
  import opened Wrappers
  import opened Text
  import opened Values
  import opened Models
  import opened Database

  // ----- Loading a workflow and its steps -------------------------------------------------------

  /** `SELECT * FROM workflow_steps WHERE workflow_id = $1`, in table order. */
  function StepsOfWorkflow(rows: seq<StepRow>, workflowId: int): (r: seq<StepRow>)
    ensures forall i :: 0 <= i < |r| ==> r[i].workflowId == workflowId
    ensures forall x :: multiset(r)[x] == (if x.workflowId == workflowId then multiset(rows)[x] else 0)
    decreases |rows|
  {
    if rows == [] then []
    else
      var init := rows[..|rows| - 1];
      var last := rows[|rows| - 1];
      assert rows == init + [last];
      StepsOfWorkflow(init, workflowId) + (if last.workflowId == workflowId then [last] else [])
  }

  predicate SortedByOrder(rows: seq<StepRow>)
  {
    forall i, j :: 0 <= i < j < |rows| ==> rows[i].order <= rows[j].order
  }

  lemma SortedCons(head: StepRow, rest: seq<StepRow>)
    requires SortedByOrder(rest) && (rest != [] ==> head.order <= rest[0].order)
    ensures SortedByOrder([head] + rest)
  {
    var r := [head] + rest;
    forall i, j | 0 <= i < j < |r| ensures r[i].order <= r[j].order {
      if i > 0 {
        assert r[i] == rest[i - 1] && r[j] == rest[j - 1];
      } else {
        assert r[j] == rest[j - 1];
      }
    }
  }

  /** Inserts `row` after every element of no greater order, so equal orders keep their arrival order. */
  function InsertByOrder(row: StepRow, sorted: seq<StepRow>): (r: seq<StepRow>)
    requires SortedByOrder(sorted)
    ensures SortedByOrder(r)
    ensures multiset(r) == multiset(sorted) + multiset{row}
    ensures r[0] == row || (sorted != [] && r[0] == sorted[0])
    decreases |sorted|
  {
    if sorted == [] || row.order < sorted[0].order then
      SortedCons(row, sorted);
      [row] + sorted
    else
      var rest := InsertByOrder(row, sorted[1..]);
      assert sorted == [sorted[0]] + sorted[1..];
      SortedCons(sorted[0], rest);
      [sorted[0]] + rest
  }

  /** `ORDER BY step_order`: a stable sort on the order column. */
  function SortByOrder(rows: seq<StepRow>): (r: seq<StepRow>)
    ensures SortedByOrder(r)
    ensures multiset(r) == multiset(rows)
    decreases |rows|
  {
    if rows == [] then []
    else
      assert rows == rows[..|rows| - 1] + [rows[|rows| - 1]];
      InsertByOrder(rows[|rows| - 1], SortByOrder(rows[..|rows| - 1]))
  }

  /** A step as the loaders map it from its row: the row carries no input mapping. */
  function StepOf(row: StepRow): Step
  {
    Step(row.id, row.workflowId, row.stepType, row.config, None, row.order)
  }

  function StepsOfRows(rows: seq<StepRow>): (steps: seq<Step>)
    ensures |steps| == |rows| && forall i :: 0 <= i < |rows| ==> steps[i] == StepOf(rows[i])
  {
    seq(|rows|, i requires 0 <= i < |rows| => StepOf(rows[i]))
  }

  /** The stored row a loaded step came from. */
  function RowOf(step: Step): StepRow
  {
    StepRow(step.id, step.workflowId, step.stepType, step.config, step.order)
  }

  function RowsOf(steps: seq<Step>): (rows: seq<StepRow>)
    ensures |rows| == |steps| && forall i :: 0 <= i < |steps| ==> rows[i] == RowOf(steps[i])
  {
    seq(|steps|, i requires 0 <= i < |steps| => RowOf(steps[i]))
  }

  /** A workflow row together with its steps, ordered by `step_order`. */
  function LoadWorkflow(row: WorkflowRow, stepRows: seq<StepRow>): (w: Workflow)
    ensures w.id == row.id && w.name == row.name && w.description == row.description
    ensures w.triggerType == row.triggerType && w.triggerValue == row.triggerValue
    ensures forall i :: 0 <= i < |w.steps| ==> w.steps[i].inputMapping.None?
    ensures forall i, j :: 0 <= i < j < |w.steps| ==> w.steps[i].order <= w.steps[j].order
  {
    var sorted := SortByOrder(StepsOfWorkflow(stepRows, row.id));
    Workflow(row.id, row.name, row.description, row.triggerType, row.triggerValue, StepsOfRows(sorted))
  }

  /**
   * A loaded workflow's steps are exactly the stored steps of that workflow, each as often as it
   * is stored, and all of them belong to it.
   */
  lemma LoadedStepsAreStored(row: WorkflowRow, stepRows: seq<StepRow>)
    ensures forall x :: multiset(RowsOf(LoadWorkflow(row, stepRows).steps))[x]
                     == (if x.workflowId == row.id then multiset(stepRows)[x] else 0)
    ensures forall i :: 0 <= i < |LoadWorkflow(row, stepRows).steps| ==> LoadWorkflow(row, stepRows).steps[i].workflowId == row.id
  {
    var filtered := StepsOfWorkflow(stepRows, row.id);
    var sorted := SortByOrder(filtered);
    var steps := LoadWorkflow(row, stepRows).steps;
    assert RowsOf(steps) == sorted;
    forall i | 0 <= i < |steps| ensures steps[i].workflowId == row.id {
      assert sorted[i] in multiset(filtered);
      var k :| 0 <= k < |filtered| && filtered[k] == sorted[i];
    }
  }

  /** `SELECT * FROM workflows WHERE id = $1`, first row. */
  function FindWorkflow(workflows: seq<WorkflowRow>, id: int): (r: Option<WorkflowRow>)
    ensures r.None? <==> forall i :: 0 <= i < |workflows| ==> workflows[i].id != id
    ensures r.Some? ==> r.value in workflows && r.value.id == id
    decreases |workflows|
  {
    if workflows == [] then None
    else if workflows[0].id == id then Some(workflows[0])
    else FindWorkflow(workflows[1..], id)
  }

  /** `getWorkflow(id)`: the workflow with its steps, or `null`. */
  function GetWorkflow(workflows: seq<WorkflowRow>, stepRows: seq<StepRow>, id: int): (r: Option<Workflow>)
    ensures r.None? <==> forall i :: 0 <= i < |workflows| ==> workflows[i].id != id
    ensures r.Some? ==> r.value.id == id
  {
    match FindWorkflow(workflows, id)
    case None => None
    case Some(row) => Some(LoadWorkflow(row, stepRows))
  }

  // ----- Execution-time estimate ---------------------------------------------------------------

  const BASE_TIME: nat := 500

  /** The per-step cost in milliseconds. */
  function StepCost(stepType: string): (cost: nat)
    ensures 100 <= cost <= 1500 && cost % 100 == 0
    ensures stepType == "email" ==> cost == 1000
    ensures stepType == "slack" ==> cost == 800
    ensures stepType == "http" ==> cost == 1500
    ensures stepType == "log" ==> cost == 100
    ensures stepType !in {"email", "slack", "http", "log"} ==> cost == 500
  {
    if stepType == "email" then 1000
    else if stepType == "slack" then 800
    else if stepType == "http" then 1500
    else if stepType == "log" then 100
    else 500
  }

  /** The base time plus the cost of every step. */
  function TotalTime(steps: seq<StepRow>): nat
    decreases |steps|
  {
    if steps == [] then BASE_TIME
    else TotalTime(steps[..|steps| - 1]) + StepCost(steps[|steps| - 1].stepType)
  }

  /**
   * `n.toFixed(1)` for `n` = tenths / 10: a canonical decimal integer part, a point and one digit,
   * which read back as `tenths`.
   */
  function FixedOne(tenths: nat): (r: string)
    ensures |r| >= 3 && IsDigit(r[|r| - 1]) && r[|r| - 2] == '.'
    ensures IsCanonicalIndex(r[..|r| - 2])
    ensures DigitsValue(r[..|r| - 2]) * 10 + DigitValue(r[|r| - 1]) == tenths
  {
    var whole := NatToString(tenths / 10);
    var r := whole + "." + [DigitChar(tenths % 10)];
    assert r[..|r| - 2] == whole;
    NatToStringCanonical(tenths / 10);
    DigitsValueOfNatToString(tenths / 10);
    r
  }

  /**
   * The formatted estimate: milliseconds below one second, seconds with one decimal below one
   * minute, minutes with one decimal otherwise (rounded half up). The seconds branch drops the
   * digits below the tenth, which is exact for the multiples of 100 that `TotalTime` produces
   * (`TotalTimeBounds`); `toFixed` would round the others.
   */
  function FormatEstimate(totalTime: nat): (r: string)
    ensures |r| >= 2
    ensures totalTime < 1000 ==> r == NatToString(totalTime) + "ms"
    ensures 1000 <= totalTime < 60000 ==> r == FixedOne(totalTime / 100) + "s"
    ensures totalTime >= 60000 ==> r == FixedOne((totalTime + 3000) / 6000) + "m"
    ensures totalTime < 1000 <==> r[|r| - 2..] == "ms"
    ensures totalTime >= 60000 <==> r[|r| - 1] == 'm'
    ensures 1000 <= totalTime < 60000 <==> r[|r| - 1] == 's' && r[|r| - 2] != 'm'
  {
    if totalTime < 1000 then
      var r := NatToString(totalTime) + "ms";
      assert r[|r| - 2..] == "ms";
      r
    else if totalTime < 60000 then
      var f := FixedOne(totalTime / 100);
      var r := f + "s";
      assert r[|r| - 2] == f[|f| - 1] && IsDigit(r[|r| - 2]);
      r
    else
      var f := FixedOne((totalTime + 3000) / 6000);
      var r := f + "m";
      assert r[|r| - 2] == f[|f| - 1] && IsDigit(r[|r| - 2]);
      r
  }

  /** `estimateExecutionTime(steps)`: accumulate the costs, then format. */
  method EstimateExecutionTime(steps: seq<StepRow>) returns (estimate: string)
    ensures estimate == FormatEstimate(TotalTime(steps))
  {
    var totalTime := BASE_TIME;
    for i := 0 to |steps|
      invariant totalTime == TotalTime(steps[..i])
    {
      assert steps[..i + 1][..i] == steps[..i];
      totalTime := totalTime + StepCost(steps[i].stepType);
    }
    assert steps[..|steps|] == steps;
    estimate := FormatEstimate(totalTime);
  }

  /** Every step adds between 100 ms and 1500 ms, and every total is a multiple of 100 ms. */
  lemma {:induction false} TotalTimeBounds(steps: seq<StepRow>)
    ensures BASE_TIME + 100 * |steps| <= TotalTime(steps) <= BASE_TIME + 1500 * |steps|
    ensures TotalTime(steps) % 100 == 0
    decreases |steps|
  {
    if steps != [] {
      TotalTimeBounds(steps[..|steps| - 1]);
    }
  }

  /** The estimate is additive: the base time is counted once for a concatenation. */
  lemma {:induction false} TotalTimeAppend(a: seq<StepRow>, b: seq<StepRow>)
    ensures TotalTime(a + b) + BASE_TIME == TotalTime(a) + TotalTime(b)
    decreases |b|
  {
    if b == [] {
      assert a + b == a;
    } else {
      var b' := b[..|b| - 1];
      assert (a + b)[..|a + b| - 1] == a + b';
      assert (a + b)[|a + b| - 1] == b[|b| - 1];
      TotalTimeAppend(a, b');
    }
  }

  /** A workflow without steps is estimated at "500ms"; a single e-mail step at "1.5s". */
  lemma EstimateExamples(email: StepRow)
    requires email.stepType == "email"
    ensures FormatEstimate(TotalTime([])) == "500ms"
    ensures FormatEstimate(TotalTime([email])) == "1.5s"
  {
    assert NatToString(500) == "500" by {
      assert NatToString(50) == "50" by { assert NatToString(5) == "5"; }
    }
    assert [email][..0] == [];
    assert NatToString(1) == "1";
  }

  lemma {:induction false} DigitCharInjective(a: nat, b: nat)
    requires a < 10 && b < 10 && DigitChar(a) == DigitChar(b)
    ensures a == b
  {
    assert DigitValue(DigitChar(a)) == a && DigitValue(DigitChar(b)) == b;
  }

  lemma {:induction false} FixedOneInjective(a: nat, b: nat)
    requires FixedOne(a) == FixedOne(b)
    ensures a == b
  {
    var ra, rb := FixedOne(a), FixedOne(b);
    assert ra[|ra| - 1] == DigitChar(a % 10) && rb[|rb| - 1] == DigitChar(b % 10);
    DigitCharInjective(a % 10, b % 10);
    assert ra[..|ra| - 2] == NatToString(a / 10);
    assert rb[..|rb| - 2] == NatToString(b / 10);
    NatToStringInjective(a / 10, b / 10);
  }

  /** Below one minute the estimate determines the total it was printed from. */
  lemma {:induction false} EstimateInjective(t1: nat, t2: nat)
    requires t1 % 100 == 0 && t2 % 100 == 0 && t1 < 60000 && t2 < 60000
    requires FormatEstimate(t1) == FormatEstimate(t2)
    ensures t1 == t2
  {
    var r := FormatEstimate(t1);
    if t1 < 1000 {
      assert t2 < 1000;
      assert r[..|r| - 2] == NatToString(t1);
      assert FormatEstimate(t2)[..|r| - 2] == NatToString(t2);
      NatToStringInjective(t1, t2);
    } else {
      assert 1000 <= t2;
      assert r[..|r| - 1] == FixedOne(t1 / 100);
      assert FormatEstimate(t2)[..|r| - 1] == FixedOne(t2 / 100);
      FixedOneInjective(t1 / 100, t2 / 100);
    }
  }

  /**
   * The number an estimate prints is the total itself: the milliseconds below one second, and
   * below one minute the seconds, whose tenths times 100 give the total exactly.
   */
  lemma EstimateReadsBack(steps: seq<StepRow>)
    ensures var t := TotalTime(steps);
            var r := FormatEstimate(t);
            && (t < 1000 ==> AllDigits(r[..|r| - 2]) && DigitsValue(r[..|r| - 2]) == t)
            && (1000 <= t < 60000 ==>
                  var f := r[..|r| - 1];
                  && |f| >= 3 && f[|f| - 2] == '.' && AllDigits(f[..|f| - 2]) && IsDigit(f[|f| - 1])
                  && (DigitsValue(f[..|f| - 2]) * 10 + DigitValue(f[|f| - 1])) * 100 == t)
  {
    var t := TotalTime(steps);
    var r := FormatEstimate(t);
    TotalTimeBounds(steps);
    if t < 1000 {
      assert r[..|r| - 2] == NatToString(t);
      DigitsValueOfNatToString(t);
    } else if t < 60000 {
      assert r[..|r| - 1] == FixedOne(t / 100);
    }
  }

  // ----- Default trigger ------------------------------------------------------------------------

  const DEFAULT_TRIGGER_TYPE: string := "manual"

  /** The name lower-cased, with every run of white space replaced by one underscore. */
  function DefaultTriggerValue(name: string): string
  {
    ReplaceSpaceRuns(ToLowerAscii(name))
  }

  predicate NoUpper(s: string) { forall i :: 0 <= i < |s| ==> !IsUpperAscii(s[i]) }

  lemma NoSpaceCons(c: char, r: string)
    requires !IsSpace(c) && NoSpace(r)
    ensures NoSpace([c] + r)
  {
    assert forall i :: 1 <= i < |r| + 1 ==> ([c] + r)[i] == r[i - 1];
  }

  lemma NoUpperCons(c: char, r: string)
    requires !IsUpperAscii(c) && NoUpper(r)
    ensures NoUpper([c] + r)
  {
    assert forall i :: 1 <= i < |r| + 1 ==> ([c] + r)[i] == r[i - 1];
  }

  lemma NoUpperSuffix(s: string, k: nat)
    requires NoUpper(s) && k <= |s|
    ensures NoUpper(s[k..])
  {
    assert forall i :: 0 <= i < |s| - k ==> s[k..][i] == s[k + i];
  }

  /** The replacement leaves no white space. */
  lemma {:induction false} ReplaceSpaceRunsNoSpaceLeft(s: string)
    ensures NoSpace(ReplaceSpaceRuns(s))
    decreases |s|
  {
    if s != [] {
      var rest := if IsSpace(s[0]) then TrimStart(s) else s[1..];
      var head := if IsSpace(s[0]) then '_' else s[0];
      ReplaceSpaceRunsNoSpaceLeft(rest);
      NoSpaceCons(head, ReplaceSpaceRuns(rest));
    }
  }

  /** The replacement adds no upper-case letter. */
  lemma {:induction false} ReplaceSpaceRunsNoUpper(s: string)
    requires NoUpper(s)
    ensures NoUpper(ReplaceSpaceRuns(s))
    decreases |s|
  {
    if s != [] {
      var rest := if IsSpace(s[0]) then TrimStart(s) else s[1..];
      var head := if IsSpace(s[0]) then '_' else s[0];
      NoUpperSuffix(s, |s| - |rest|);
      ReplaceSpaceRunsNoUpper(rest);
      NoUpperCons(head, ReplaceSpaceRuns(rest));
    }
  }

  /** A string with no white space is left as it is. */
  lemma {:induction false} ReplaceSpaceRunsNoSpace(s: string)
    requires NoSpace(s)
    ensures ReplaceSpaceRuns(s) == s
    decreases |s|
  {
    if s != [] {
      ReplaceSpaceRunsNoSpace(s[1..]);
    }
  }

  /** The default trigger value has no white space and no upper-case ASCII letter. */
  lemma DefaultTriggerValueShape(name: string)
    ensures NoSpace(DefaultTriggerValue(name))
    ensures NoUpper(DefaultTriggerValue(name))
  {
    ReplaceSpaceRunsNoSpaceLeft(ToLowerAscii(name));
    ReplaceSpaceRunsNoUpper(ToLowerAscii(name));
  }

  /** Deriving the default from a default gives it back. */
  lemma DefaultTriggerValueIdempotent(name: string)
    ensures DefaultTriggerValue(DefaultTriggerValue(name)) == DefaultTriggerValue(name)
  {
    var v := DefaultTriggerValue(name);
    DefaultTriggerValueShape(name);
    assert ToLowerAscii(v) == v;
    ReplaceSpaceRunsNoSpace(v);
  }

  /** A single space between two words becomes one underscore. */
  lemma {:induction false} ReplaceOneSpace(a: string, b: string)
    requires NoSpace(a) && NoSpace(b)
    ensures ReplaceSpaceRuns(a + " " + b) == a + "_" + b
    decreases |a|
  {
    ReplaceSpaceRunsNoSpace(b);
    if a == [] {
      assert a + " " + b == " " + b && (" " + b)[1..] == b;
      assert TrimStart(b) == b;
    } else {
      ReplaceOneSpace(a[1..], b);
      assert (a + " " + b)[1..] == a[1..] + " " + b;
      assert a == [a[0]] + a[1..];
    }
  }

  lemma LowerExample()
    ensures ToLowerAscii("Test Workflow") == "test workflow"
  {
    var name := "Test Workflow";
    var lower := ToLowerAscii(name);
    assert |lower| == 13;
    assert lower[0] == 't' && lower[5] == 'w';
    assert forall i :: 0 <= i < |name| && i != 0 && i != 5 ==> !IsUpperAscii(name[i]) && lower[i] == name[i];
  }

  /** The documented example: "Test Workflow" defaults to "test_workflow". */
  lemma DefaultTriggerValueExample()
    ensures DefaultTriggerValue("Test Workflow") == "test_workflow"
  {
    LowerExample();
    assert "test workflow" == "test" + " " + "workflow";
    assert "test_workflow" == "test" + "_" + "workflow";
    ReplaceOneSpace("test", "workflow");
  }

  // ----- Workflow creation ----------------------------------------------------------------------

  /** One step of the inferred configuration (the `InferredWorkflowConfig` interface). */
  datatype InferredStep = InferredStep(stepType: string, stepConfig: Value, stepOrder: int, description: string)

  datatype InferredConfig = InferredConfig(
    description: string,
    triggerType: string,
    triggerValue: string,
    triggerDescription: string,
    steps: seq<InferredStep>)

  /** `nlpService.inferWorkflowConfig(description, name)`: the configuration or the error message. */
  type Inference = (string, string) -> Result<InferredConfig, string>

  datatype TriggerInfo = TriggerInfo(triggerType: string, triggerValue: string, description: string)

  /** An inferred step is reported under a newly generated id; a stored step under its row id. */
  datatype StepKey = GeneratedId(uuid: Uuid) | RowId(id: int)

  datatype StepInfo = StepInfo(id: StepKey, stepType: string, config: Value, order: int)

  datatype InferredData = InferredData(trigger: TriggerInfo, steps: seq<StepInfo>)

  /** The `WorkflowCreationResponse`, without its timestamps. */
  datatype CreationResponse = CreationResponse(workflow: Workflow, inferredData: InferredData, executionEstimate: string)

  /** What a new workflow is stored with: its description, its trigger and the steps to insert. */
  datatype Settings = Settings(description: string, triggerType: string, triggerValue: string, steps: seq<InferredStep>)

  /**
   * The inferred description, trigger and steps when a natural-language description is given and
   * inference succeeds; otherwise an empty description, the "manual" trigger with the default
   * value, and no steps.
   */
  function SettingsFor(name: string, naturalLanguageDescription: string, infer: Inference): Settings
  {
    if naturalLanguageDescription != "" && infer(naturalLanguageDescription, name).Success? then
      var config := infer(naturalLanguageDescription, name).value;
      Settings(config.description, config.triggerType, config.triggerValue, config.steps)
    else
      Settings("", DEFAULT_TRIGGER_TYPE, DefaultTriggerValue(name), [])
  }

  /** The step rows stored for the settings' steps, with consecutive serial ids from `firstId`. */
  function StepRows(workflowId: int, steps: seq<InferredStep>, firstId: int): (rows: seq<StepRow>)
    ensures |rows| == |steps|
    ensures forall i :: 0 <= i < |rows| ==>
              rows[i] == StepRow(firstId + i, workflowId, steps[i].stepType, steps[i].stepConfig, steps[i].stepOrder)
  {
    seq(|steps|, i requires 0 <= i < |steps| =>
      StepRow(firstId + i, workflowId, steps[i].stepType, steps[i].stepConfig, steps[i].stepOrder))
  }

  function DefaultTriggerDescription(triggerType: string, triggerValue: string): string
  {
    "Workflow will be triggered when " + triggerType + " event with value '" + triggerValue + "' occurs"
  }

  /** The reported step of a stored row. */
  function StepInfoOf(row: StepRow): StepInfo
  {
    StepInfo(RowId(row.id), row.stepType, row.config, row.order)
  }

  /** The reported steps of an inferred configuration, under the uuids from `firstUuid` on. */
  function GeneratedSteps(steps: seq<InferredStep>, firstUuid: Uuid): (r: seq<StepInfo>)
    ensures |r| == |steps|
    ensures forall i :: 0 <= i < |r| ==>
              r[i] == StepInfo(GeneratedId(firstUuid + i), steps[i].stepType, steps[i].stepConfig, steps[i].stepOrder)
  {
    seq(|steps|, i requires 0 <= i < |steps| =>
      StepInfo(GeneratedId(firstUuid + i), steps[i].stepType, steps[i].stepConfig, steps[i].stepOrder))
  }

  /** The `uuidv4()` ids handed to the inferred steps in the response. */
  method GenerateStepIds(db: Db, steps: seq<InferredStep>) returns (generated: seq<StepInfo>)
    requires db.Valid()
    modifies db`nextUuid
    ensures db.Valid() && db.nextUuid == old(db.nextUuid) + |steps|
    ensures generated == GeneratedSteps(steps, old(db.nextUuid))
  {
    generated := [];
    for i := 0 to |steps|
      invariant db.Valid() && db.nextUuid == old(db.nextUuid) + i
      invariant generated == GeneratedSteps(steps[..i], old(db.nextUuid))
    {
      var id := db.NewUuid();
      var step := steps[i];
      generated := generated + [StepInfo(GeneratedId(id), step.stepType, step.stepConfig, step.stepOrder)];
    }
    assert steps[..|steps|] == steps;
  }

  /** The step INSERTs of `createWorkflow`, in the given order, collecting the returned rows. */
  method InsertSteps(db: Db, workflowId: int, steps: seq<InferredStep>) returns (workflowSteps: seq<StepRow>)
    requires db.Valid()
    modifies db`steps, db`nextStepId
    ensures db.Valid() && db.nextStepId == old(db.nextStepId) + |steps|
    ensures workflowSteps == StepRows(workflowId, steps, old(db.nextStepId))
    ensures db.steps == old(db.steps) + workflowSteps
  {
    workflowSteps := [];
    for i := 0 to |steps|
      invariant db.Valid() && db.nextStepId == old(db.nextStepId) + i
      invariant workflowSteps == StepRows(workflowId, steps[..i], old(db.nextStepId))
      invariant db.steps == old(db.steps) + workflowSteps
    {
      var stepId := db.NewStepId();
      var step := steps[i];
      var row := StepRow(stepId, workflowId, step.stepType, step.stepConfig, step.stepOrder);
      db.steps := db.steps + [row];
      workflowSteps := workflowSteps + [row];
    }
    assert steps[..|steps|] == steps;
  }

  /**
   * The first part of `createWorkflow`: infer the configuration when a natural-language
   * description is given, handing out a uuid per inferred step, and fall back to the defaults.
   */
  method ChooseSettings(db: Db, name: string, naturalLanguageDescription: string, infer: Inference)
    returns (settings: Settings, inferred: Option<InferredData>)
    requires db.Valid()
    modifies db`nextUuid
    ensures db.Valid() && settings == SettingsFor(name, naturalLanguageDescription, infer)
    ensures naturalLanguageDescription != "" && infer(naturalLanguageDescription, name).Success? ==>
              var config := infer(naturalLanguageDescription, name).value;
              inferred == Some(InferredData(TriggerInfo(config.triggerType, config.triggerValue, config.triggerDescription),
                                            GeneratedSteps(config.steps, old(db.nextUuid))))
    ensures !(naturalLanguageDescription != "" && infer(naturalLanguageDescription, name).Success?) ==> inferred.None?
  {
    settings := Settings("", DEFAULT_TRIGGER_TYPE, DefaultTriggerValue(name), []);
    inferred := None;
    if naturalLanguageDescription != "" {
      var inference := infer(naturalLanguageDescription, name);
      if inference.Success? {
        var config := inference.value;
        settings := Settings(config.description, config.triggerType, config.triggerValue, config.steps);
        var generated := GenerateStepIds(db, config.steps);
        inferred := Some(InferredData(TriggerInfo(config.triggerType, config.triggerValue, config.triggerDescription),
                                      generated));
      }
    }
  }

  /** The workflow INSERT of `createWorkflow`, then the INSERT of each of its steps in order. */
  method StoreWorkflow(db: Db, name: string, settings: Settings) returns (workflowId: int, workflowSteps: seq<StepRow>)
    requires db.Valid()
    modifies db`workflows, db`steps, db`nextWorkflowId, db`nextStepId
    ensures db.Valid() && workflowId == old(db.nextWorkflowId)
    ensures db.workflows == old(db.workflows)
              + [WorkflowRow(workflowId, name, settings.description, settings.triggerType, settings.triggerValue)]
    ensures workflowSteps == StepRows(workflowId, settings.steps, old(db.nextStepId))
    ensures db.steps == old(db.steps) + workflowSteps
  {
    workflowId := db.NewWorkflowId();
    db.workflows := db.workflows + [WorkflowRow(workflowId, name, settings.description, settings.triggerType, settings.triggerValue)];
    workflowSteps := InsertSteps(db, workflowId, settings.steps);
  }

  /**
   * `createWorkflow`: choose the settings (inferring them when a natural-language description is
   * given), insert the workflow, insert the inferred steps in their given order, and report.
   */
  method CreateWorkflow(db: Db, name: string, naturalLanguageDescription: string, infer: Inference)
    returns (response: CreationResponse)
    requires db.Valid()
    modifies db`workflows, db`steps, db`nextWorkflowId, db`nextStepId, db`nextUuid
    ensures db.Valid()
    ensures var settings := SettingsFor(name, naturalLanguageDescription, infer);
            var workflowId := old(db.nextWorkflowId);
            var rows := StepRows(workflowId, settings.steps, old(db.nextStepId));
            && db.workflows == old(db.workflows)
                 + [WorkflowRow(workflowId, name, settings.description, settings.triggerType, settings.triggerValue)]
            && db.steps == old(db.steps) + rows
            && response.workflow == Workflow(workflowId, name, settings.description, settings.triggerType,
                                             settings.triggerValue, StepsOfRows(rows))
            && response.executionEstimate == FormatEstimate(TotalTime(rows))
    ensures naturalLanguageDescription != "" && infer(naturalLanguageDescription, name).Success? ==>
              var config := infer(naturalLanguageDescription, name).value;
              response.inferredData
                == InferredData(TriggerInfo(config.triggerType, config.triggerValue, config.triggerDescription),
                                GeneratedSteps(config.steps, old(db.nextUuid)))
    ensures !(naturalLanguageDescription != "" && infer(naturalLanguageDescription, name).Success?) ==>
              response.inferredData
                == InferredData(TriggerInfo(DEFAULT_TRIGGER_TYPE, DefaultTriggerValue(name),
                                            DefaultTriggerDescription(DEFAULT_TRIGGER_TYPE, DefaultTriggerValue(name))),
                                [])
  {
    var settings, inferred := ChooseSettings(db, name, naturalLanguageDescription, infer);
    var workflowId, workflowSteps := StoreWorkflow(db, name, settings);
    assert workflowSteps == StepRows(old(db.nextWorkflowId), SettingsFor(name, naturalLanguageDescription, infer).steps,
                                     old(db.nextStepId));
    var estimate := EstimateExecutionTime(workflowSteps);
    var data := if inferred.Some? then inferred.value
                else InferredData(TriggerInfo(settings.triggerType, settings.triggerValue,
                                              DefaultTriggerDescription(settings.triggerType, settings.triggerValue)),
                                  seq(|workflowSteps|, i requires 0 <= i < |workflowSteps| => StepInfoOf(workflowSteps[i])));
    response := CreationResponse(Workflow(workflowId, name, settings.description, settings.triggerType,
                                          settings.triggerValue, StepsOfRows(workflowSteps)),
                                 data, estimate);
  }

  /** Without a natural-language description, or when inference fails, no step is stored. */
  lemma NoInferenceNoSteps(name: string, naturalLanguageDescription: string, infer: Inference)
    requires naturalLanguageDescription == "" || infer(naturalLanguageDescription, name).Failure?
    ensures SettingsFor(name, naturalLanguageDescription, infer)
         == Settings("", DEFAULT_TRIGGER_TYPE, DefaultTriggerValue(name), [])
  {
  }

  /** Every stored step comes from a successful inference, with its type, configuration and order kept. */
  lemma StoredStepsAreInferred(name: string, naturalLanguageDescription: string, infer: Inference,
                               workflowId: int, firstId: int, i: nat)
    requires i < |StepRows(workflowId, SettingsFor(name, naturalLanguageDescription, infer).steps, firstId)|
    ensures naturalLanguageDescription != "" && infer(naturalLanguageDescription, name).Success?
    ensures var step := infer(naturalLanguageDescription, name).value.steps[i];
            var row := StepRows(workflowId, SettingsFor(name, naturalLanguageDescription, infer).steps, firstId)[i];
            row.stepType == step.stepType && row.config == step.stepConfig && row.order == step.stepOrder
  {
  }
}
