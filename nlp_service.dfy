/**
 * The configuration inference of src/services/nlpService.ts: the prompt built from the workflow's
 * name and description, the extraction of the JSON text from the model's reply (from the first
 * `{` to the last `}`), the validation of the parsed configuration, and the wrapping of every
 * failure into one message.
 *
 * The model and `JSON.parse` are not modelled: `Generate` and `Parse` are the oracles that stand
 * for them.
 */
module NlpService {
  import opened Wrappers
  import opened Text
  import opened Values

  // ----- The prompt ---------------------------------------------------------------------------

  /** The prompt up to the workflow's name. */
  const PROMPT_HEAD: string := @"
You are a workflow automation expert. Parse the following natural language description and convert it into a structured workflow configuration.

Workflow Name: "

  /** The prompt between the name and the natural-language description. */
  const PROMPT_MIDDLE: string := @"
Natural Language Description: "

  /** The prompt after the description: what to determine, the available types, the reply format. */
  const PROMPT_TAIL: string := @"

Based on this description, determine:
1. A concise technical description of the workflow (1-2 sentences)
2. The trigger type and value that should start this workflow
3. The sequence of steps needed to accomplish this workflow

Available trigger types:
- ""manual"" - Triggered manually by a user
- ""schedule"" - Triggered on a schedule (use cron syntax for the value)
- ""webhook"" - Triggered by an HTTP webhook (use a path for the value)
- ""email"" - Triggered by receiving an email (use an email address for the value)

Available step types:
- ""email"" - Send an email (requires: to, subject, body)
- ""slack"" - Send a Slack message (requires: channel, message)
- ""http"" - Make an HTTP request (requires: method, url, optional: headers, body)
- ""log"" - Log a message (requires: message, optional: level)
- ""claude"" - Use Claude AI to generate content (requires: prompt, optional: model)

Return your response in the following JSON format:
{
  ""description"": ""concise technical description of the workflow"",
  ""trigger_type"": ""one of the available trigger types"",
  ""trigger_value"": ""appropriate value for the trigger type"",
  ""trigger_description"": ""human-readable description of the trigger"",
  ""steps"": [
    {
      ""step_type"": ""one of the available step types"",
      ""step_config"": {
        // configuration specific to the step type
      },
      ""step_order"": 1,
      ""description"": ""human-readable description of what this step does""
    }
    // additional steps as needed
  ]
}
"

  /** The prompt sent for a workflow `workflowName` described as `description`. */
  function BuildPrompt(workflowName: string, description: string): string
  {
    PROMPT_HEAD + workflowName + PROMPT_MIDDLE + description + PROMPT_TAIL
  }

  /** The prompt quotes the workflow's name and its description in full. */
  lemma PromptMentions(workflowName: string, description: string)
    ensures Contains(BuildPrompt(workflowName, description), workflowName)
    ensures Contains(BuildPrompt(workflowName, description), description)
  {
    PromptPieces(PROMPT_HEAD, workflowName, PROMPT_MIDDLE, description, PROMPT_TAIL);
  }

  lemma PromptPieces(head: string, workflowName: string, middle: string, description: string, tail: string)
    ensures Contains(head + workflowName + middle + description + tail, workflowName)
    ensures Contains(head + workflowName + middle + description + tail, description)
  {
    var p := head + workflowName + middle + description + tail;
    assert p == head + workflowName + (middle + description + tail);
    ContainsInfix(head, workflowName, middle + description + tail);
    assert p == (head + workflowName + middle) + description + tail;
    ContainsInfix(head + workflowName + middle, description, tail);
  }

  // ----- Extracting the JSON text -------------------------------------------------------------

  /** The position of the first `c` in `s`. */
  function FirstIndexOf(s: string, c: char): (r: Option<nat>)
    ensures r.None? <==> NoChar(s, c)
    ensures r.Some? ==> r.value < |s| && s[r.value] == c && NoChar(s[..r.value], c)
    decreases |s|
  {
    if s == [] then None
    else if s[0] == c then Some(0)
    else
      match FirstIndexOf(s[1..], c)
      case None => None
      case Some(k) =>
        assert s[..k + 1] == [s[0]] + s[1..][..k];
        Some(k + 1)
  }

  /** The position of the last `c` in `s`. */
  function LastIndexOf(s: string, c: char): (r: Option<nat>)
    ensures r.None? <==> NoChar(s, c)
    ensures r.Some? ==> r.value < |s| && s[r.value] == c && NoChar(s[r.value + 1..], c)
    decreases |s|
  {
    if s == [] then None
    else if s[|s| - 1] == c then Some(|s| - 1)
    else
      var r := LastIndexOf(s[..|s| - 1], c);
      if r.Some? then
        assert s[r.value + 1..] == s[..|s| - 1][r.value + 1..] + [s[|s| - 1]];
        r
      else r
  }

  /**
   * `response.match(/\{[\s\S]*\}/)`: the greedy match starts at the first `{` and ends at the last
   * `}`, and exists exactly when some `}` follows that `{`.
   */
  function ExtractJson(response: string): (r: Option<string>)
    ensures r.Some? ==> |r.value| >= 2 && r.value[0] == '{' && r.value[|r.value| - 1] == '}'
  {
    match (FirstIndexOf(response, '{'), LastIndexOf(response, '}'))
    case (Some(open), Some(close)) => if open < close then Some(response[open..close + 1]) else None
    case _ => None
  }

  /** A JSON text is found exactly when some `{` comes before some `}`. */
  lemma ExtractJsonFound(response: string)
    ensures ExtractJson(response).Some? <==>
            exists i, j :: 0 <= i < j < |response| && response[i] == '{' && response[j] == '}'
  {
    var open := FirstIndexOf(response, '{');
    var close := LastIndexOf(response, '}');
    if exists i, j :: 0 <= i < j < |response| && response[i] == '{' && response[j] == '}' {
      var i, j :| 0 <= i < j < |response| && response[i] == '{' && response[j] == '}';
      assert !NoChar(response, '{') && !NoChar(response, '}');
    }
  }

  /**
   * Prose around the JSON text is ignored: with no `{` before it and no `}` after it, exactly the
   * text from its opening `{` to its closing `}` is extracted; and every extracted text arises so.
   */
  lemma ExtractFromProse(before: string, json: string, after: string)
    requires NoChar(before, '{') && NoChar(after, '}')
    requires |json| >= 2 && json[0] == '{' && json[|json| - 1] == '}'
    ensures ExtractJson(before + json + after) == Some(json)
  {
    var s := before + json + after;
    var open := FirstIndexOf(s, '{');
    var close := LastIndexOf(s, '}');
    assert s[|before|] == '{' && s[|before| + |json| - 1] == '}';
    assert s[|before|..|before| + |json|] == json;
  }

  lemma ExtractedFromProse(response: string)
    requires ExtractJson(response).Some?
    ensures exists before, after :: response == before + ExtractJson(response).value + after
                                    && NoChar(before, '{') && NoChar(after, '}')
  {
    var open := FirstIndexOf(response, '{').value;
    var close := LastIndexOf(response, '}').value;
    assert response == response[..open] + response[open..close + 1] + response[close + 1..];
  }

  // ----- Inferring the configuration ----------------------------------------------------------

  /** What a rejected promise or a `throw` carries: an `Error`, or another value as `String` renders it. */
  datatype Raised = RaisedError(message: string) | RaisedValue(rendered: string)

  /** `claudeService.generateResponse(prompt)`, reduced to the `content` of the reply. */
  type Generate = string -> Result<string, Raised>

  /**
   * `JSON.parse(text)` on a text that starts with `{`: the members of the object, or the message of
   * the `SyntaxError`.
   */
  type Parse = string -> Result<map<string, Value>, string>

  const INFER_FAILED: string := "Failed to infer workflow configuration: "
  const NO_JSON: string := "Failed to extract JSON from Claude response"
  const INVALID_CONFIG: string := "Invalid workflow configuration format"

  /**
   * The validation of the parsed configuration: description, trigger type and trigger value must be
   * truthy, and steps an array (an empty one included).
   */
  predicate IsValidConfig(config: map<string, Value>)
  {
    && Truthy(Get(config, "description"))
    && Truthy(Get(config, "trigger_type"))
    && Truthy(Get(config, "trigger_value"))
    && Get(config, "steps").List?
  }

  /** `error instanceof Error ? error.message : String(error)`. */
  function RaisedMessage(error: Raised): string
  {
    match error
    case RaisedError(message) => message
    case RaisedValue(rendered) => rendered
  }

  /**
   * `inferWorkflowConfig(description, workflowName)`: the parsed configuration when the reply holds
   * a JSON text that parses to a valid configuration, returned as parsed; otherwise the failure,
   * whatever it was, under one prefix.
   */
  function InferWorkflowConfig(description: string, workflowName: string, generate: Generate, parse: Parse)
    : (r: Result<map<string, Value>, string>)
    ensures r.Success? ==>
              && var reply := generate(BuildPrompt(workflowName, description));
              && reply.Success? && ExtractJson(reply.value).Some?
              && parse(ExtractJson(reply.value).value) == Success(r.value)
              && IsValidConfig(r.value)
    ensures r.Failure? ==> StartsWith(r.error, INFER_FAILED)
  {
    match generate(BuildPrompt(workflowName, description))
    case Failure(error) => Failure(INFER_FAILED + RaisedMessage(error))
    case Success(content) =>
      match ExtractJson(content)
      case None => Failure(INFER_FAILED + NO_JSON)
      case Some(jsonText) =>
        match parse(jsonText)
        case Failure(message) => Failure(INFER_FAILED + message)
        case Success(config) =>
          if IsValidConfig(config) then Success(config) else Failure(INFER_FAILED + INVALID_CONFIG)
  }

  /** A reply holding a valid configuration gives back exactly what was parsed. */
  lemma ValidConfigReturnedUnchanged(description: string, workflowName: string, generate: Generate, parse: Parse,
                                     before: string, json: string, after: string, config: map<string, Value>)
    requires generate(BuildPrompt(workflowName, description)) == Success(before + json + after)
    requires NoChar(before, '{') && NoChar(after, '}')
    requires |json| >= 2 && json[0] == '{' && json[|json| - 1] == '}'
    requires parse(json) == Success(config) && IsValidConfig(config)
    ensures InferWorkflowConfig(description, workflowName, generate, parse) == Success(config)
  {
    ExtractFromProse(before, json, after);
  }

  /** Each failure, with its message. */
  lemma InferenceFailures(description: string, workflowName: string, generate: Generate, parse: Parse)
    ensures var reply := generate(BuildPrompt(workflowName, description));
            var r := InferWorkflowConfig(description, workflowName, generate, parse);
            && (reply.Failure? ==> r == Failure(INFER_FAILED + RaisedMessage(reply.error)))
            && (reply.Success? && ExtractJson(reply.value).None? ==> r == Failure(INFER_FAILED + NO_JSON))
            && (reply.Success? && ExtractJson(reply.value).Some? && parse(ExtractJson(reply.value).value).Failure? ==>
                  r == Failure(INFER_FAILED + parse(ExtractJson(reply.value).value).error))
            && (reply.Success? && ExtractJson(reply.value).Some? && parse(ExtractJson(reply.value).value).Success?
                && !IsValidConfig(parse(ExtractJson(reply.value).value).value) ==>
                  r == Failure(INFER_FAILED + INVALID_CONFIG))
  {
  }

  /** A reply without any `}` after a `{` is rejected before anything is parsed. */
  lemma NoBracesNoParse(description: string, workflowName: string, generate: Generate, parse: Parse)
    requires generate(BuildPrompt(workflowName, description)).Success?
    requires NoChar(generate(BuildPrompt(workflowName, description)).value, '}')
    ensures InferWorkflowConfig(description, workflowName, generate, parse) == Failure(INFER_FAILED + NO_JSON)
  {
    var content := generate(BuildPrompt(workflowName, description)).value;
    ExtractJsonFound(content);
  }
}
