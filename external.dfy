/**
 * What the core receives from code it does not contain: the text-generation
 * service, JSON parsing and printing, and the data tool. Each is an oracle
 * whose answer is a parameter of the model.
 */
module External {
  import opened Wrappers
  import opened Types

  /** A JSON value (numbers as integers). */
  datatype Json =
    | JNull
    | JBool(b: bool)
    | JNumber(n: int)
    | JString(s: string)
    | JArray(items: seq<Json>)
    | JObject(fields: seq<(string, Json)>)

  datatype Role = User | Assistant

  /** One conversation turn sent to the text-generation service. */
  datatype Message = Message(role: Role, content: string)

  /** One call to the text-generation service. */
  datatype Request = Request(model: string, maxTokens: int, system: string, messages: seq<Message>)

  /**
   * How such a call ends: the first content block is text, or it is some
   * other kind of block, or the call throws with a message.
   */
  datatype CallOutcome = Text(text: string) | NonText | Fails(message: string)

  /** How the data tool ends: rows of data, or an exception with a message. */
  datatype ToolOutcome = Rows(data: Json) | ToolError(message: string)

  /**
   * `JSON.parse` of a planner reply: a syntax error with its message, or a
   * value. The value is a plan when it is an object whose `tasks` is
   * present and truthy; `None` stands for null and every other value.
   */
  datatype PlanParse = SyntaxError(message: string) | Parsed(plan: Option<GlobalPlan>)

  /**
   * The oracles of one request: the text-generation service, the two uses of
   * `JSON.parse` (plan, query object; `None` when it throws), the data tool
   * and `JSON.stringify(_, null, 2)`.
   */
  datatype Env = Env(
    llm: Request -> CallOutcome,
    parsePlan: string -> PlanParse,
    parseQuery: string -> Option<Json>,
    callApi: Json -> ToolOutcome,
    stringify: Json -> string)
}
