/**
 * The integration dispatcher of src/integrations/index.ts: a fixed registry from a step's type
 * tag to one of five integrations, and the lookup that either delegates to the integration or
 * reports an unknown tag as a result. The registry is a plain object, so a tag naming a property
 * every object inherits from `Object.prototype` finds that property, which has no `execute`.
 *
 * The integrations themselves (e-mail, Slack, HTTP, log, Claude) perform side effects and are
 * not modelled; `Execute` is the oracle that stands for them.
 */
module Integrations {
  import opened Values

  datatype Kind = Email | Slack | Http | Log | Claude

  /** The registry object `integrations`. */
  const Registry: map<string, Kind> :=
    map["email" := Email, "slack" := Slack, "http" := Http, "log" := Log, "claude" := Claude]

  /**
   * The properties an object literal inherits from `Object.prototype`: looking one of them up in
   * the registry yields a truthy value.
   */
  const InheritedNames: set<string> :=
    {"constructor", "hasOwnProperty", "isPrototypeOf", "propertyIsEnumerable", "toLocaleString", "toString",
     "valueOf", "__proto__", "__defineGetter__", "__defineSetter__", "__lookupGetter__", "__lookupSetter__"}

  /** The message of the TypeError raised by calling `integration.execute` when it is `undefined`. */
  const NOT_A_FUNCTION: string := "integration.execute is not a function"

  /**
   * What a thrown value looks like to the engine: an `Error` instance carries `message`; any other
   * thrown object is seen through its `message` property as a template literal renders it
   * ("undefined" when it has none).
   */
  datatype Thrown = ErrorInstance(message: string) | NonError(messageText: string)

  /** What awaiting a dispatch yields: the resolved result or the rejection. */
  datatype Outcome = Returned(result: Value) | Threw(error: Thrown)

  /** `integration.execute(config)` for each registered integration: the external oracle. */
  type Execute = (Kind, Value) -> Outcome

  /** `{ success: false, error: "Unknown integration type: <type>" }`. */
  function UnknownTypeResult(stepType: string): (r: Value)
    ensures r.Obj? && Get(r.fields, "success") == Bool(false)
    ensures Get(r.fields, "error") == Str("Unknown integration type: " + stepType)
  {
    Obj(map["success" := Bool(false), "error" := Str("Unknown integration type: " + stepType)])
  }

  /**
   * `executeIntegration(type, config)`: a registered tag delegates; an inherited property is found
   * but is no integration, so calling its `execute` rejects with a TypeError; any other tag is
   * reported as unknown.
   */
  function ExecuteIntegration(stepType: string, config: Value, execute: Execute): (r: Outcome)
    ensures stepType in Registry ==> r == execute(Registry[stepType], config)
    ensures stepType !in Registry && stepType in InheritedNames ==> r == Threw(ErrorInstance(NOT_A_FUNCTION))
    ensures stepType !in Registry && stepType !in InheritedNames ==> r == Returned(UnknownTypeResult(stepType))
  {
    if stepType in Registry then execute(Registry[stepType], config)
    else if stepType in InheritedNames then Threw(ErrorInstance(NOT_A_FUNCTION))
    else Returned(UnknownTypeResult(stepType))
  }

  /** The registry holds exactly these five tags. */
  lemma RegistryTags()
    ensures Registry.Keys == {"email", "slack", "http", "log", "claude"}
  {
  }

  /**
   * An unregistered tag that is no inherited property produces a reported failure and never a
   * thrown error, whatever the oracle does; an inherited property always throws.
   */
  lemma UnknownTypeNeverThrows(stepType: string, config: Value, execute: Execute)
    requires stepType !in Registry
    ensures ExecuteIntegration(stepType, config, execute).Returned? <==> stepType !in InheritedNames
    ensures stepType !in InheritedNames ==>
              !Truthy(Get(ExecuteIntegration(stepType, config, execute).result.fields, "success"))
  {
  }

  /** No registered tag is an inherited property, so each reaches its own integration. */
  lemma RegistryOwnsItsTags()
    ensures Registry.Keys !! InheritedNames
  {
    RegistryTags();
  }

  /** The lookup compares tags exactly: a change of case is an unknown tag. */
  lemma LookupIsCaseSensitive()
    ensures "Email" !in Registry && "HTTP" !in Registry && "Log" !in Registry
    ensures "email " !in Registry
  {
    RegistryTags();
  }
}
