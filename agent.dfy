/**
 * The base agent (src/agent.ts): a configuration, a conversation history
 * that `Process` extends, and the never-failing `ProcessError` used to
 * explain a rejection.
 */
module Agents {
  import opened Wrappers
  import opened External

  /** An agent's fixed settings; `maxTokens` is optional. */
  datatype AgentConfig = AgentConfig(name: string, model: string, systemPrompt: string, maxTokens: Option<int>)

  const DefaultMaxTokens := 4096
  const ErrorMaxTokens := 1024
  const UnexpectedResponse := "Unexpected response type from Claude"
  const CannedApology := "I apologize, but I cannot process your request at this time."

  /** `config.maxTokens || 4096`: an absent or zero setting falls back to 4096. */
  function EffectiveMaxTokens(cfg: AgentConfig): int
  {
    if cfg.maxTokens.Some? && cfg.maxTokens.value != 0 then cfg.maxTokens.value else DefaultMaxTokens
  }

  /** The request `process` sends: the agent's model and system prompt, and the messages given. */
  function Ask(cfg: AgentConfig, messages: seq<Message>): Request
  {
    Request(cfg.model, EffectiveMaxTokens(cfg), cfg.systemPrompt, messages)
  }

  /** The history after a call, and its reply text or the message it threw. */
  datatype CallResult = CallResult(history: seq<Message>, reply: Result<string, string>)

  /**
   * What `process(input)` does, as a function of the history before it.
   * The user turn goes in first and the whole history is sent; the
   * assistant turn is added only when the reply is text, so a failed call
   * leaves the user turn dangling.
   */
  function Call(cfg: AgentConfig, history: seq<Message>, input: string, llm: Request -> CallOutcome): (c: CallResult)
    ensures |c.history| == |history| + (if c.reply.Success? then 2 else 1)
    ensures c.history[..|history| + 1] == history + [Message(User, input)]
    ensures c.reply.Success? ==> c.history[|history| + 1] == Message(Assistant, c.reply.value)
    ensures c.reply.Success? <==> llm(Ask(cfg, history + [Message(User, input)])).Text?
    ensures c.reply.Success? ==> c.reply.value == llm(Ask(cfg, history + [Message(User, input)])).text
    ensures llm(Ask(cfg, history + [Message(User, input)])).Fails? ==>
              c.reply == Failure(llm(Ask(cfg, history + [Message(User, input)])).message)
    ensures llm(Ask(cfg, history + [Message(User, input)])).NonText? ==> c.reply == Failure(UnexpectedResponse)
  {
    var sent := history + [Message(User, input)];
    match llm(Ask(cfg, sent))
    case Text(t) => CallResult(sent + [Message(Assistant, t)], Success(t))
    case NonText => CallResult(sent, Failure(UnexpectedResponse))
    case Fails(m) => CallResult(sent, Failure(m))
  }

  /**
   * A call after a failed one sends both user turns back to back: the
   * failed call's turn is never answered and never removed.
   */
  lemma DanglingTurnIsResent(cfg: AgentConfig, history: seq<Message>, first: string, second: string, llm: Request -> CallOutcome)
    requires Call(cfg, history, first, llm).reply.Failure?
    ensures Call(cfg, Call(cfg, history, first, llm).history, second, llm).history[..|history| + 2]
            == history + [Message(User, first), Message(User, second)]
  {
    var h1 := Call(cfg, history, first, llm).history;
    assert h1 == history + [Message(User, first)] by {
      assert h1 == h1[..|history| + 1];
    }
    var h2 := Call(cfg, h1, second, llm).history;
    assert h2[..|h1| + 1] == h1 + [Message(User, second)];
  }

  /** The text sent to the error agent. */
  function RejectionContext(failedInput: string, reason: string): string
  {
    "User Input: \"" + failedInput + "\"\nRejection Reason: \"" + reason + "\""
  }

  /** The request `processError` sends: one user message, the history is not used. */
  function ErrorRequest(cfg: AgentConfig, failedInput: string, reason: string): Request
  {
    Request(cfg.model, ErrorMaxTokens, cfg.systemPrompt, [Message(User, RejectionContext(failedInput, reason))])
  }

  function SafetyApology(reason: string): string
  {
    "I apologize, but I cannot process your request because it violated our safety policies (" + reason + ")."
  }

  /**
   * `processError(failedInput, reason)`: it never throws. It is a function
   * of the configuration only, so it neither reads nor changes a history.
   * It returns the reply text, the canned apology for a non-text reply, or
   * an apology quoting `reason` when the call throws; the answer is empty
   * only when the service itself answered with empty text.
   */
  function ProcessError(cfg: AgentConfig, failedInput: string, reason: string, llm: Request -> CallOutcome): (r: string)
    ensures llm(ErrorRequest(cfg, failedInput, reason)).Text? ==> r == llm(ErrorRequest(cfg, failedInput, reason)).text
    ensures llm(ErrorRequest(cfg, failedInput, reason)).NonText? ==> r == CannedApology
    ensures llm(ErrorRequest(cfg, failedInput, reason)).Fails? ==> r == SafetyApology(reason)
    ensures r == "" ==> llm(ErrorRequest(cfg, failedInput, reason)) == Text("")
  {
    match llm(ErrorRequest(cfg, failedInput, reason))
    case Text(t) => t
    case NonText => CannedApology
    case Fails(_) => SafetyApology(reason)
  }

  /** An agent instance: fixed configuration, growing history. */
  class Agent {
    const config: AgentConfig
    var history: seq<Message>

    constructor(config: AgentConfig)
      ensures this.config == config && history == []
    {
      this.config := config;
      history := [];
    }

    /** `process(input)`: returns the reply text, or the thrown message as a `Failure`. */
    method Process(input: string, llm: Request -> CallOutcome) returns (r: Result<string, string>)
      modifies this
      ensures history == Call(config, old(history), input, llm).history
      ensures r == Call(config, old(history), input, llm).reply
    {
      history := history + [Message(User, input)];
      var outcome := llm(Ask(config, history));
      match outcome {
        case Text(t) =>
          history := history + [Message(Assistant, t)];
          r := Success(t);
        case NonText =>
          r := Failure(UnexpectedResponse);
        case Fails(m) =>
          r := Failure(m);
      }
    }

    /** `getHistory()`: the current list of turns. */
    function GetHistory(): (h: seq<Message>)
      reads this
      ensures h == history
    {
      history
    }

    /** `clearHistory()`: the next call sends only its own user turn. */
    method ClearHistory()
      modifies this
      ensures history == []
      ensures forall input, llm :: Call(config, history, input, llm).history[..1] == [Message(User, input)]
    {
      history := [];
    }
  }
}
