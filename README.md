# workflow-automation: a verified model of the run engine

This project models the core of the workflow-automation service in Dafny:

- **`RunService`** is the run engine of `src/services/runService.ts`. It matches a trigger to a
  workflow and creates a run with one "pending" step-run per step. It executes the steps strictly
  in order, resolving each step's input mapping against the outputs of the steps before it. It
  mirrors every status change of the in-memory run into the run tables, and it retries a failed
  run as a fresh one.
- **`Integrations`** is the integration registry and dispatcher of `src/integrations/index.ts`.
- **`WorkflowService`** covers the parts of `src/services/workflowService.ts` the engine depends
  on. These are loading a workflow with its steps ordered by `step_order`, the execution-time
  estimate, the default trigger, and which steps `createWorkflow` stores.
- **`NlpService`** covers the configuration inference of `src/services/nlpService.ts`. That is
  the prompt, the extraction from the first `{` to the last `}`, the validation, and the wrapping
  of every failure.

The supporting modules are these:

- `Values` holds the JSON-like payloads with JavaScript truthiness, property lookup and object
  spread.
- `Text` holds decimal rendering, `parseInt`, `split`, ASCII lower-casing, white-space runs and
  substrings.
- `Models` holds the records of `src/models`. The run is a class whose fields the engine updates
  in place.
- `Database` holds the four tables in memory, with the two identifier supplies. A ghost log
  records every write to the run tables, in order.

These are the modelling choices:

- **The run is an object.** `WorkflowRun` is a class, and the execution methods
  (`SetStepRun`, `RecordResult`, `RunStep`, `ExecuteStepSequence`, …) update its fields and the
  database in place.
- **The execution is specified by functions.**
  - `StepOutcome` gives the result of one step.
  - `RunFrom` gives the results of the whole sequence.
  - `ApplyResults`, `FinalStatus`, `FinalError` and `Writes` give the new state.
  - The methods are proved to produce exactly that state, through its results. The status
    invariants are then proved about these functions.
- **The launch is split in two.** `createRun` launches `executeRun` without awaiting it.
  - The part of `executeRun` before its first `await` runs inside `createRun`. That part is
    `StartExecution`: the run is set to RUNNING and the update is issued.
  - The remainder is `ContinueExecution`. It runs after `createRun` has returned.
  - So the run that `createRun`, `triggerWorkflow` and `retryWorkflowRun` return is already
    RUNNING, as the repository's tests expect (tests/services/runService.test.ts:150).
- **The integrations and the language model are oracles.** The integrations are the oracle
  `Execute`, which returns a value or throws. The language model is the oracle `Generate`, and
  `JSON.parse` is the oracle `Parse`.
- **Identifiers and timestamps are abstracted.** Uuids come from one counter in `Db`. The serial
  ids of `workflows` and of `workflow_steps` come from one counter per table, as each table's own
  column default hands them out. A timestamp is reduced to whether `completed_at` is set.
- **The registry is a plain object.** A step type that names a property every object inherits
  from `Object.prototype` ("toString", "constructor", "__proto__", …) finds that property. It has
  no `execute`, so the call throws a TypeError and the step fails (`RunService.InheritedTypeFails`).

Some behaviours of the code may surprise a reader. The model follows the code in each:

- **An integration's reported failure completes its step.** The code never reads `success`, so a
  result with `success: false` completes the step with the result as its output
  (`RunService.ReturnedResultCompletes`). The same holds for an unregistered step type's
  `{ success: false, … }` result.
- **A literal mapping value is ignored.** The comment on `input_mapping`
  (src/models/workflowStep.ts:9) allows "a static value". The code skips every mapping value
  without `:` (src/services/runService.ts:247), so the key keeps the step configuration's own
  value, or stays absent (`InputMapping.LiteralsChangeNothing`).
- **A reference to a step without output leaves the key as it was**
  (`InputMapping.MissingReferenceKept`). Only a found reference whose path breaks gives
  `undefined` (`InputMapping.BrokenPathGivesUndefined`).
- **The run's failure message names only the step's position.** It reads
  `Step <n> failed: <message>` (src/services/runService.ts:334), without the step's type.
- **A retried run has no link to the original.** The record has a `retry_of` field
  (src/models/run.ts:14), and test-retry-workflow.js:267-271 expects it to point back to the
  original run. `retryWorkflowRun` never sets it, so a retried run has `retryOf == None`.
- **A "claude" step can fail without throwing.** A "claude" step whose integration resolves to
  `undefined` fails. The reason is that its logging calls `substring` on
  `JSON.stringify(undefined)` (src/services/runService.ts:293-299), which throws a TypeError
  inside the step's `try`.

## Model

| member | source | states |
|---|---|---|
| Values.Child | src/services/runService.ts:258-259 | a step into `part` exists only for a truthy object-typed value; on an object exactly when it has that key, giving that field; on an array `length` gives the element count, and otherwise exactly a canonical decimal below the length gives that element |
| Values.Spread | src/services/runService.ts:237 | spreading an object copies exactly its fields; spreading `null`, `undefined`, a boolean or a number gives `{}` |
| Values.IndexMapAt | src/services/runService.ts:237 | a spread array holds each element under its index's decimal name |
| Text.NatToStringInjective | src/services/runService.ts:249 | different numbers have different decimal renderings |
| Text.ArrayIndex | src/services/runService.ts:258 | a property name denotes an array index exactly when it is a canonical decimal |
| Text.ParseIntOfIntToString | src/services/runService.ts:249 | `parseInt` reads back the decimal rendering of every integer, negative ones included |
| Text.SplitAtLeastTwo | src/services/runService.ts:247-248 | a string containing the separator splits into at least two pieces, so the resolver's second piece exists |
| Text.JoinSplit | src/services/runService.ts:248 | joining the pieces of a split with the separator gives the string back |
| Text.SplitJoin | src/services/runService.ts:255 | splitting a join of separator-free pieces gives the pieces back |
| Text.SplitPiecesHaveNoSeparator | src/services/runService.ts:255 | no piece of a split contains the separator |
| Text.TrimStart | src/services/workflowService.ts:64 | the result is a suffix of the input, everything removed is white space, and the result does not start with white space |
| Text.ToLowerAscii | src/services/workflowService.ts:64 | lower-casing keeps the length and maps every character on its own |
| Integrations.UnknownTypeResult | src/integrations/index.ts:26 | the unknown-type result is an object with `success: false` and the error "Unknown integration type: <type>" |
| Integrations.ExecuteIntegration | src/integrations/index.ts:19-29 | a registered tag delegates to its integration with the configuration unchanged; an inherited property name throws "integration.execute is not a function"; any other tag gives the unknown-type result |
| Integrations.RegistryTags | src/integrations/index.ts:10-16 | the registry holds exactly email, slack, http, log and claude |
| Integrations.UnknownTypeNeverThrows | src/integrations/index.ts:23-28 | an unregistered tag throws exactly when it names an inherited property, whatever the integrations do; otherwise its result's `success` is falsy |
| Integrations.RegistryOwnsItsTags | src/integrations/index.ts:10-16 | no registered tag names an inherited property, so each reaches its own integration |
| Integrations.LookupIsCaseSensitive | src/integrations/index.ts:23 | tags are matched exactly: "Email", "HTTP", "Log" and "email " are unknown |
| Models.WorkflowRun.constructor | src/services/runService.ts:97-117 | a new run is PENDING with no completion, no error and no `retry_of` |
| Database.Db.NewUuid | src/services/runService.ts:95 | `uuidv4()` returns an id no run or step-run row uses yet |
| Database.Db.NewWorkflowId | src/services/workflowService.ts:74-79 | the workflow INSERT … RETURNING hands out the next id of the workflows table, above every existing workflow's id |
| Database.Db.NewStepId | src/services/workflowService.ts:87-92 | a step INSERT … RETURNING hands out the next id of the workflow_steps table, above every existing step's id |
| InputMapping.WalkPath | src/services/runService.ts:254-264 | the walk loop with its early `break` computes `Walk` |
| InputMapping.WalkUndef | src/services/runService.ts:258 | walking from `undefined` gives `undefined` along any path |
| InputMapping.WalkAppend | src/services/runService.ts:257-264 | walking a concatenated path is walking its second half from where the first half ends |
| InputMapping.BrokenWalk | src/services/runService.ts:260-262 | a walk that cannot follow some segment ends in `undefined` |
| InputMapping.Assignments | src/services/runService.ts:243-267 | the keys that receive a value are exactly the mapped keys whose reference finds a truthy output |
| InputMapping.OverlayInsert | src/services/runService.ts:267 | assigning one more key is one more map update |
| InputMapping.ResolveReference | src/services/runService.ts:247-264 | an entry gives a value exactly when it is a string with `:` whose leading id parses to a step with a truthy output; that value is the walk of the output along the dot path |
| InputMapping.ResolveInputs | src/services/runService.ts:237-280 | the loop over the mapping's entries computes `ResolveConfig`, the spread configuration with every assigned key overwritten |
| InputMapping.ResolvedKeys | src/services/runService.ts:237-280 | the resolved configuration holds the copied keys plus the assigned keys, and no others |
| InputMapping.UnassignedKeyKept | src/services/runService.ts:241-278 | a key that is not assigned keeps the copied configuration's entry, or stays absent |
| InputMapping.LiteralsChangeNothing | src/services/runService.ts:247 | a mapping made only of literals leaves the configuration equal to the spread copy |
| InputMapping.MissingReferenceKept | src/services/runService.ts:252-277 | a reference whose id does not parse or whose step has no truthy output leaves its key as it was |
| InputMapping.ReferenceParts | src/services/runService.ts:248-249 | splitting "<id>:<path>" at `:` gives back the integer id and the path |
| InputMapping.ReferenceResolves | src/services/runService.ts:252-267 | in any mapping, a key whose value references a step with a truthy output is set to the walk along the dot path |
| InputMapping.BrokenPathGivesUndefined | src/services/runService.ts:258-262 | in any mapping, a key whose found reference has a path that breaks at some segment is set to `undefined` |
| InputMapping.ItemsExample | src/services/runService.ts:253 | "1:items.0.id" against the output `{ items: [{ id: 123 }] }` resolves to 123 |
| InputMapping.DataMemberExample | tests/services/runService.test.ts:565-566 | "1:data" against an integration result `{ success, data, error }` resolves to its `data` member |
| RunService.StoredOutput | src/services/runService.ts:387 | a truthy output is stored as itself, any other as NULL |
| RunService.UpdateRunStatus | src/services/runService.ts:346-362 | the run's row gets the status and error, with `completed_at` set exactly for COMPLETED and FAILED; nothing else changes |
| RunService.UpdateStepStatus | src/services/runService.ts:364-395 | the step-run's row of that run gets the status, the stored output and the error, with `completed_at` set exactly for COMPLETED and FAILED; a row of another run is not touched |
| RunService.RunFrom | src/services/runService.ts:208-344 | the results of a sequence are completions followed by at most one failure, and a sequence that stops early ends in a failure |
| RunService.SetStepRun | src/services/runService.ts:232-233 | a step-run's new state is assigned in memory and written to its row, keeping the mirror |
| RunService.CompleteRun | src/services/runService.ts:215-219 | the run becomes COMPLETED with `completed_at` set, in memory and in its row |
| RunService.FailRun | src/services/runService.ts:331-337 | the run becomes FAILED with its message and `completed_at` set, in memory and in its row |
| RunService.RecordResult | src/services/runService.ts:305-337 | the RUNNING step-run becomes COMPLETED with its output, or it and the run become FAILED with their messages, with the writes in that order |
| RunService.PerformStep | src/services/runService.ts:237-303 | resolving the inputs and dispatching gives `StepOutcome`, the step's specified result |
| RunService.RunStep | src/services/runService.ts:228-337 | one step sets its step-run RUNNING, then records exactly `StepOutcome`; a completion leaves the run as it was, and a failure fails it |
| RunService.ExecuteStepSequence | src/services/runService.ts:208-344 | from step `i` on, the step-runs, the run's status, completion and error, and the writes are those of `RunFrom`'s results; no other step-run row changes |
| RunService.ContinueSequence | src/services/runService.ts:302-317 | after a completed step, the rest of the sequence runs on the outputs with that step's output added, and the two parts compose into the whole sequence's effect |
| RunService.SequenceStep | src/services/runService.ts:303-317 | a completed step followed by the rest gives the whole sequence's results, state and writes |
| RunService.SequenceStops | src/services/runService.ts:318-343 | a failed step is the sequence's last result |
| RunService.OnlyRowOf | src/services/runService.ts:383 | updating one of the run's step-run rows changes no other row |
| RunService.PendingStepRuns | src/services/runService.ts:106-116 | one untouched "pending" step-run per step, in step order, for that run and that step |
| RunService.InsertWrites | src/services/runService.ts:127-140 | one INSERT per step-run, in order |
| RunService.InsertRowsContents | src/services/runService.ts:127-140 | inserting step-runs with distinct ids adds exactly their rows and leaves every other row as it was |
| RunService.InsertRowsKeys | src/services/runService.ts:127-140 | inserting step-runs adds exactly their ids as keys |
| RunService.InsertRowsValues | src/services/runService.ts:127-140 | each inserted step-run is stored as its row |
| RunService.InsertRowsKeepsOthers | src/services/runService.ts:127-140 | rows under other ids are left as they were |
| RunService.InsertedRowsMirror | src/services/runService.ts:119-140 | after the run's row and its step-runs are inserted, the tables mirror the run |
| RunService.InsertedRowsBelow | src/services/runService.ts:127-140 | inserting rows under fresh ids keeps every key below the next uuid |
| RunService.BuildStepRuns | src/services/runService.ts:106-116 | building the step-runs draws one fresh uuid per step and gives `PendingStepRuns` |
| RunService.InsertStepRuns | src/services/runService.ts:127-140 | the INSERT loop stores exactly `InsertRows` and issues `InsertWrites` |
| RunService.StartExecution | src/services/runService.ts:167-169 | the run becomes RUNNING in memory and in its row |
| RunService.InsertRun | src/services/runService.ts:119-144 | the run's row, then each step-run's row, is inserted, and the tables mirror the run |
| RunService.InsertAndStart | src/services/runService.ts:119-152 | after the inserts and the launch, the run is RUNNING and mirrored, with exactly those writes |
| RunService.NewRun | src/services/runService.ts:95-117 | the new run has a fresh id, the workflow's id and trigger, status PENDING and one pending step-run per step under consecutive fresh ids |
| RunService.CreateRun | src/services/runService.ts:92-159 | `createRun` leaves a new RUNNING run for the workflow with its rows inserted, nothing else touched, and the writes in order |
| RunService.ContinueExecution | src/services/runService.ts:172-186 | a run without steps completes at once; otherwise the steps run from the first with no outputs recorded |
| RunService.ExecuteRun | src/services/runService.ts:161-199 | an awaited execution sets the run RUNNING, then ends as `RunFrom`'s results say |
| RunService.FirstMatch | src/services/runService.ts:19-37 | the first row whose trigger type and value both equal the given ones, or none when no row has them |
| RunService.TriggeredWorkflow | src/services/runService.ts:19-65 | a workflow is found exactly when some row matches the trigger, and it carries that trigger |
| RunService.TriggerWorkflow | src/services/runService.ts:11-90 | no run and no change when no workflow matches; otherwise a new RUNNING run of the first match |
| RunService.RerunWorkflow | src/services/runService.ts:496 | the new run differs from the retried one, which is left as it was |
| RunService.RetryWorkflowRun | src/services/runService.ts:474-501 | `null` for an unknown run; "Cannot retry run with status S" unless it is FAILED; "Workflow W not found" when the workflow is gone; otherwise a new run of that workflow, with the failed run left as it was |
| RunService.WritesShape | src/services/runService.ts:231-337 | the writes of an execution set each attempted step-run RUNNING and then to its outcome, in order, and end with the run's final status |
| RunService.RunFromStepwise | src/services/runService.ts:302-317 | each result is its step's outcome on the outputs of every step that completed before it, recorded under their step ids |
| RunService.StepOutcomeCases | src/services/runService.ts:291-343 | a step fails exactly when its dispatch throws or a "claude" step resolves to `undefined`; the step-run gets the `Error`'s message, "Unknown error" for another thrown value, or the TypeError's message; the run gets "Step <n> failed: " followed by the thrown value's `message` or that TypeError's message |
| RunService.ReturnedResultCompletes | src/services/runService.ts:291-309 | any returned result completes its step, a `success: false` one included, and so does an unregistered type that is no inherited property |
| RunService.InheritedTypeFails | src/services/runService.ts:291-337 | a step whose type names an inherited property fails, its step-run with "integration.execute is not a function" and the run with "Step <n> failed: " followed by that message |
| RunService.ExecutorNamesFailedStep | src/services/runService.ts:334-336 | every failure's run message names the failed step's 1-based position |
| RunService.FailureNamesStepFrom | src/services/runService.ts:334-336 | a failed sequence's run message names the 1-based position of the step that failed |
| RunService.AppliedShape | src/services/runService.ts:305-343 | after recording any sequence's results, the completed step-runs come first, then at most one failure, and the rest stay "pending" |
| RunService.ExecutionShape | src/services/runService.ts:208-344 | after an execution, a prefix of step-runs is COMPLETED, then at most one FAILED, and the rest stay "pending"; the run is COMPLETED exactly when every step-run is, and otherwise names the failed step |
| RunService.FailedRunMessage | src/services/runService.ts:318-337 | a failed execution's run message is "Step <n> failed: " for the last step attempted, followed by `FailureText` of its dispatch on the outputs recorded before it: the thrown value's `message`, or the TypeError's message when it is a "claude" step that resolved to `undefined` |
| WorkflowService.StepsOfWorkflow | src/services/workflowService.ts:254-257 | the selected rows are exactly the workflow's rows, each as often as it is stored |
| WorkflowService.InsertByOrder | src/services/workflowService.ts:255 | inserting into a sorted list keeps it sorted and adds exactly that row |
| WorkflowService.SortByOrder | src/services/workflowService.ts:255 | `ORDER BY step_order` gives a sorted permutation of the rows |
| WorkflowService.StepsOfRows | src/services/workflowService.ts:259-267 | each row becomes a step with its own fields, in the same order |
| WorkflowService.LoadWorkflow | src/services/workflowService.ts:234-269 | the loaded workflow has its row's fields, steps in `step_order` order, and no input mappings |
| WorkflowService.LoadedStepsAreStored | src/services/workflowService.ts:254-267 | a loaded workflow's steps are exactly its stored steps, each as often as stored |
| WorkflowService.FindWorkflow | src/services/workflowService.ts:236-242 | the first row with that id, or none when no row has it |
| WorkflowService.GetWorkflow | src/services/workflowService.ts:234-274 | `null` exactly when no workflow has that id; otherwise the workflow with that id |
| WorkflowService.StepCost | src/services/workflowService.ts:205-221 | email costs 1000 ms, slack 800, http 1500, log 100 and any other type 500; so every cost is a multiple of 100 between 100 and 1500 |
| WorkflowService.FixedOne | src/services/workflowService.ts:228 | `toFixed(1)` prints a canonical integer part, a point and one digit that read back as the number of tenths |
| WorkflowService.FormatEstimate | src/services/workflowService.ts:225-231 | the unit is "ms" exactly below one second, "m" exactly from one minute, and "s" exactly in between; below one second the total is printed in decimal, below one minute its tenths of a second with one decimal, otherwise its tenths of a minute rounded half up |
| WorkflowService.EstimateReadsBack | src/services/workflowService.ts:225-228 | the printed number reads back as the total: its milliseconds below one second, and below one minute seconds whose tenths times 100 are the total |
| WorkflowService.EstimateExecutionTime | src/services/workflowService.ts:199-232 | the accumulating loop computes the formatted base time plus every step's cost |
| WorkflowService.TotalTimeBounds | src/services/workflowService.ts:202-222 | the total lies between 500 + 100·n and 500 + 1500·n and is a multiple of 100 |
| WorkflowService.TotalTimeAppend | src/services/workflowService.ts:205-222 | the total of a concatenation counts the base time once |
| WorkflowService.EstimateExamples | src/services/workflowService.ts:225-228 | no steps give "500ms" and one e-mail step gives "1.5s" |
| WorkflowService.EstimateInjective | src/services/workflowService.ts:225-228 | below one minute the estimate determines the total it was printed from |
| WorkflowService.DefaultTriggerValueShape | src/services/workflowService.ts:64 | the default trigger value has no white space and no upper-case letter |
| WorkflowService.DefaultTriggerValueIdempotent | src/services/workflowService.ts:69-70 | the default computed from a default value gives that value back |
| WorkflowService.ReplaceSpaceRunsNoSpace | src/services/workflowService.ts:64 | a string without white space is left as it is by the replacement |
| WorkflowService.ReplaceOneSpace | src/services/workflowService.ts:64 | one space between two words becomes one underscore |
| WorkflowService.DefaultTriggerValueExample | tests/services/workflowService.test.ts:179 | "Test Workflow" defaults to "test_workflow" |
| WorkflowService.StepRows | src/services/workflowService.ts:86-94 | one stored row per inferred step, keeping its type, configuration and order, under consecutive ids of the workflow_steps table, unrelated to the workflow's own id |
| WorkflowService.GeneratedSteps | src/services/workflowService.ts:49-54 | the reported inferred steps keep their type, configuration and order under consecutive fresh uuids |
| WorkflowService.GenerateStepIds | src/services/workflowService.ts:49-54 | the `uuidv4()` loop draws one fresh id per inferred step and gives `GeneratedSteps` |
| WorkflowService.InsertSteps | src/services/workflowService.ts:84-95 | the INSERT loop appends exactly `StepRows` to the steps table, in order |
| WorkflowService.ChooseSettings | src/services/workflowService.ts:26-71 | with a description and a successful inference, the inferred settings and data; otherwise an empty description, the "manual" trigger with the default value, no steps and no inferred data |
| WorkflowService.StoreWorkflow | src/services/workflowService.ts:73-95 | the workflow row is inserted under the next workflow id, then each of its steps in order under the next step ids |
| WorkflowService.CreateWorkflow | src/services/workflowService.ts:11-153 | the stored workflow and steps, the response's workflow and estimate, and the inferred data, or the default data when there is none |
| WorkflowService.NoInferenceNoSteps | src/services/workflowService.ts:58-71 | without a description, or when inference fails, the defaults are used and no step is stored |
| WorkflowService.StoredStepsAreInferred | src/services/workflowService.ts:84-95 | every stored step comes from a successful inference and keeps its type, configuration and order |
| NlpService.PromptMentions | src/services/nlpService.ts:35-39 | the prompt contains the workflow's name and its description |
| NlpService.FirstIndexOf | src/services/nlpService.ts:82 | the first position of the character, or none exactly when it does not occur |
| NlpService.LastIndexOf | src/services/nlpService.ts:82 | the last position of the character, or none exactly when it does not occur |
| NlpService.ExtractJson | src/services/nlpService.ts:82-87 | an extracted text starts with `{` and ends with `}` |
| NlpService.ExtractJsonFound | src/services/nlpService.ts:82-85 | a text is extracted exactly when some `{` comes before some `}` |
| NlpService.ExtractFromProse | src/services/nlpService.ts:82-87 | prose without `{` before the JSON text and without `}` after it is ignored |
| NlpService.ExtractedFromProse | src/services/nlpService.ts:82-87 | every extracted text stands between a prefix without `{` and a suffix without `}` |
| NlpService.InferWorkflowConfig | src/services/nlpService.ts:28-100 | a success is the parsed configuration of the extracted text, and it is valid; every failure starts with "Failed to infer workflow configuration: " |
| NlpService.ValidConfigReturnedUnchanged | src/services/nlpService.ts:95 | a reply holding a valid configuration gives back exactly what was parsed |
| NlpService.InferenceFailures | src/services/nlpService.ts:96-99 | a failed reply, a reply without a JSON text, a parse error and an invalid configuration each fail with their own message under the common prefix |
| NlpService.NoBracesNoParse | src/services/nlpService.ts:83-85 | a reply without `}` fails with "Failed to extract JSON from Claude response" |

## Left out

- Logging is not modelled. It is output only, except the "claude" log line, whose throw on an `undefined` result is modelled.
- The database tables are in-memory values. `query`, the pool, and BEGIN/COMMIT/ROLLBACK are not modelled. No write ever fails, so the outer catch of `executeRun` ("Run execution error") and the rollback of `createWorkflow` are never reached.
- The fire-and-forget launch is not modelled as concurrency. The execution after `createRun` returns is the separate call `ContinueExecution`, so interleavings with other runs or with readers are not modelled.
- Timestamps are reduced to whether `completed_at` is set. `started_at` and `created_at` are not modelled.
- Uuids are natural numbers from a counter. Their text form is not modelled.
- `JSON.stringify` of stored outputs and of log lines is not modelled. A stored output is the value itself.
- The integrations (e-mail, Slack, HTTP, log, Claude), the Claude API and `JSON.parse` are oracles. Their own behaviour is not part of this model.
- A thrown `null` or `undefined` is not modelled. A thrown value is an `Error` with a message or another object seen through its `message` property.
- The language model's reply is modelled as its `content` text. A reply whose `content` is not a string is not modelled.
- `getWorkflowRuns`, `listWorkflows` and the row mapping of `getWorkflowRun` are not modelled, because they only read. The retry reads the run's row directly.
- The trigger query has no ORDER BY, so the model takes table order for the "first" matching row.
- WorkflowService.SortByOrder: `ORDER BY step_order` leaves the order of steps with equal `step_order` unspecified. The model fixes one stable order, and its contract states only "sorted and a permutation".
- `toLowerCase` and `\s` are restricted to ASCII, and so is the white space that `parseInt` skips. JavaScript's `\s` and `parseInt` also skip the Unicode space characters.
- Strings are sequences of characters. JavaScript's spread of a string and its indexing work on UTF-16 code units, which differ for characters outside the Basic Multilingual Plane.
- `parseInt` yields a double in JavaScript. The model's exact integer differs from it for more than about 15 digits, where the double loses precision.
- NaN and Infinity are not JSON numbers and are not modelled.
- Values.Child: a path part naming an inherited property is found by `in` in JavaScript: on an object one of `Object.prototype` ("toString", "constructor", …), on an array also one of `Array.prototype` ("map", "push", …). Most yield a function and `__proto__` yields the prototype object. Neither functions nor prototypes are values of the model, so such a part is treated as missing and the walk gives `undefined`. Step types naming these properties are modelled (`RunService.InheritedTypeFails`).
- The integration oracle `Execute` is a function. Two steps of the same kind with equal resolved configurations therefore get the same outcome within one execution, so a call that succeeds once and fails the next time is not modelled. No proved property depends on this.
- A step's `input_mapping` exists only on workflows passed in directly. No query reads or writes it: the row mappings at src/services/runService.ts:54-62 and src/services/workflowService.ts:259-267 leave it out, and the INSERT at src/services/workflowService.ts:87-92 does not store it. So every step loaded from the tables has none.
- The rest of the create-workflow request (`description`, `trigger_type`, `trigger_value`) is not modelled, because `createWorkflow` ignores it.
- The inferred configuration is consumed by `createWorkflow` typed as its interface. `InferWorkflowConfig` returns the parsed object unchanged, and the step from one view to the other is not modelled.
- WorkflowService.FormatEstimate: the minutes branch rounds the tenth half up. JavaScript's `toFixed` on the binary float of `totalTime / 60000` can round some halves down, where the model's value differs by one tenth. The seconds branch drops the digits below the tenth where `toFixed` would round (1050 gives "1.0s", not "1.1s"); every total `TotalTime` produces is a multiple of 100, where the two agree (`TotalTimeBounds`, `EstimateReadsBack`).
- Run ids are uuids and workflow and step ids are integers. The "step id" string keys of `stepOutputs` are modelled by the integer that `parseInt` reads.
