/**
 * The orchestrator (src/orchestrator.ts). `handleRequest` runs a fixed
 * sequence — safety check, planning, plan recovery and validation, the
 * task loop, synthesis — and sends any error it meets to the error agent,
 * so every request ends in text.
 *
 * The pipeline is first written as functions of a `State` (context, event
 * stream and the histories of the four agents it calls), then the
 * `Orchestrator` class runs the same steps on its fields and its agents,
 * and each method is proved to agree with the function it implements.
 */
module Orchestration {
  import opened Wrappers
  import opened Text
  import opened Types
  import opened External
  import opened Agents
  import opened Guardrails
  import DataQuery

  /** The configurations of the five agents the orchestrator uses. */
  datatype Crew = Crew(planner: AgentConfig, reasoning: AgentConfig, dataQuery: AgentConfig,
                       finalResponder: AgentConfig, errorHandler: AgentConfig)

  /** A `progress` event: who is working, a title and a text. */
  datatype Event = Event(agent: string, title: string, content: string)

  /**
   * Everything a request reads and changes: the context, the events emitted
   * so far and the histories of the planner, the two workers and the final
   * responder. The error agent keeps no history that a request changes.
   */
  datatype State = State(context: GlobalContext, events: seq<Event>,
                         planner: seq<Message>, reasoning: seq<Message>,
                         dataQuery: seq<Message>, finalResponder: seq<Message>)

  /** One step of the task loop: go on, or stop with the message thrown. */
  datatype Step = Next(state: State) | Halt(state: State, message: string)

  /** The body of `handleRequest`'s `try`: an answer, or the message of the error thrown. */
  datatype Outcome = Answered(state: State, answer: string) | Thrown(state: State, message: string)

  const SafetyCheck := Event("guardrails", "Safety Check", "Validating input safety and relevance...")
  const PlanningEvent := Event("planner", "Planning", "Analyzing request and creating execution plan...")
  const Synthesizing := Event("final-responder", "Synthesizing", "Generating final answer...")

  const GuardrailPrefix := "Guardrail Violation: "
  const PlanningPrefix := "Planning failed: "
  const PlanJsonFailure := "Failed to parse plan JSON"
  const InvalidPlan := "Invalid plan structure received from planner"
  const UnknownAgentPrefix := "Unknown agent assigned: "
  const FinalPrefix := "Final response generation failed: "
  const UnknownSystemError := "Unknown System Error"

  /** The context a new orchestrator starts from. */
  const InitialContext := GlobalContext("", None, 0, [])

  /** Steps are numbered from one in every text. */
  function StepNumber(i: nat): string
  {
    NatToString(i + 1)
  }

  function ExecutingTitle(i: nat): string
  {
    "Executing Step " + StepNumber(i)
  }

  function CompleteTitle(i: nat): string
  {
    "Step " + StepNumber(i) + " Complete"
  }

  /** The `globalOutput` entry of a finished step. */
  function StepRecord(i: nat, agent: string, result: string): string
  {
    "Step " + StepNumber(i) + " Result (" + agent + "):\n" + result
  }

  /** The message thrown when a step fails: a fixed prefix naming the step and its agent, then the cause. */
  function StepFailure(i: nat, agent: string, message: string): (r: string)
    ensures StartsWith(r, StepFailurePrefix(i, agent))
  {
    var r := StepFailurePrefix(i, agent) + message;
    assert r[..|StepFailurePrefix(i, agent)|] == StepFailurePrefix(i, agent);
    r
  }

  function StepFailurePrefix(i: nat, agent: string): string
  {
    "Step " + StepNumber(i) + " (" + agent + ") failed: "
  }

  /** The text of the "Plan Generated" event: the objective, then one "- description" line per task. */
  function PlanSummary(plan: GlobalPlan): string
  {
    "Objective: " + plan.objective + "\nTasks:\n"
    + Join(seq(|plan.tasks|, k requires 0 <= k < |plan.tasks| => "- " + plan.tasks[k].description), "\n")
  }

  /** `${this.context.plan?.objective}`: an absent plan prints as "undefined". */
  function ObjectiveText(plan: Option<GlobalPlan>): string
  {
    if plan.Some? then plan.value.objective else "undefined"
  }

  /**
   * `formatTaskInput(task)`: the task, the request's input and objective,
   * and every entry of `globalOutput`, joined by blank lines.
   */
  function TaskPrompt(ctx: GlobalContext, task: Task): string
  {
    ("\nCurrent Task: " + task.description + "\n\nGlobal Context:\n")
    + ("User Input: \"" + ctx.userInput + "\"")
    + (("\nOverall Objective: " + ObjectiveText(ctx.plan) + "\n\n")
       + ("Previous Steps Output:\n" + Join(ctx.globalOutput, "\n\n") + "\n"))
  }

  /** A task's input names the task and the request's input, and carries every earlier entry of `globalOutput`. */
  lemma TaskPromptContents(ctx: GlobalContext, task: Task)
    ensures Includes(TaskPrompt(ctx, task), "\nCurrent Task: " + task.description + "\n\nGlobal Context:\n")
    ensures Includes(TaskPrompt(ctx, task), "User Input: \"" + ctx.userInput + "\"")
    ensures Includes(TaskPrompt(ctx, task), "Previous Steps Output:\n" + Join(ctx.globalOutput, "\n\n") + "\n")
  {
    IncludesAround("\nCurrent Task: " + task.description + "\n\nGlobal Context:\n",
                   "User Input: \"" + ctx.userInput + "\"",
                   "\nOverall Objective: " + ObjectiveText(ctx.plan) + "\n\n",
                   "Previous Steps Output:\n" + Join(ctx.globalOutput, "\n\n") + "\n");
  }

  /** The input of the final responder: the objective and every entry of `globalOutput`, in order. */
  function SynthesisPrompt(objective: string, outputs: seq<string>): string
  {
    "\nOriginal Objective: " + objective + "\n\n"
    + ("Execution Results:\n" + Join(outputs, "\n\n") + "\n")
    + "\nPlease summarize this into a final answer for the user.\n"
  }

  /** The final responder sees the objective and all entries of `globalOutput`, joined in append order. */
  lemma SynthesisPromptContents(objective: string, outputs: seq<string>)
    ensures Includes(SynthesisPrompt(objective, outputs), "\nOriginal Objective: " + objective + "\n\n")
    ensures Includes(SynthesisPrompt(objective, outputs), "Execution Results:\n" + Join(outputs, "\n\n") + "\n")
  {
    IncludesAround("\nOriginal Objective: " + objective + "\n\n",
                   "Execution Results:\n" + Join(outputs, "\n\n") + "\n",
                   "\nPlease summarize this into a final answer for the user.\n", []);
    assert "\nPlease summarize this into a final answer for the user.\n" + []
           == "\nPlease summarize this into a final answer for the user.\n";
  }

  /**
   * `planJson.match(/\{[\s\S]*\}/)`: the greedy match runs from the first
   * `{` to the last `}`, and exists exactly when some `{` comes before
   * some `}`.
   */
  function BraceSpan(s: string): (r: Option<string>)
    ensures r.Some? <==> exists i, j :: 0 <= i < j < |s| && s[i] == '{' && s[j] == '}'
    ensures r.Some? ==> exists i, j :: 0 <= i < j < |s| && s[i] == '{' && s[j] == '}' && r.value == s[i..j + 1]
                          && (forall k :: 0 <= k < i ==> s[k] != '{')
                          && (forall k :: j < k < |s| ==> s[k] != '}')
  {
    match (FirstIndexOf(s, '{'), LastIndexOf(s, '}'))
    case (Some(i), Some(j)) =>
      if i < j then
        assert s[i] == '{' && s[j] == '}';
        Some(s[i..j + 1])
      else
        assert forall a, b :: 0 <= a < b < |s| && s[a] == '{' ==> s[b] != '}' by {
          forall a, b | 0 <= a < b < |s| && s[a] == '{' ensures s[b] != '}' {
            assert i <= a;
          }
        }
        None
    case _ => None
  }

  /**
   * Lines 49-58: the reply is parsed as it is; if that throws, the brace
   * span is parsed instead, and its syntax error propagates; with no span
   * the error is "Failed to parse plan JSON". A success carries the parsed
   * value, `None` when it is not a plan with tasks.
   */
  function RecoverPlan(reply: string, parse: string -> PlanParse): (r: Result<Option<GlobalPlan>, string>)
    ensures parse(reply).Parsed? ==> r == Success(parse(reply).plan)
    ensures parse(reply).SyntaxError? && BraceSpan(reply).None? ==> r == Failure(PlanJsonFailure)
    ensures parse(reply).SyntaxError? && BraceSpan(reply).Some? && parse(BraceSpan(reply).value).Parsed? ==>
              r == Success(parse(BraceSpan(reply).value).plan)
    ensures parse(reply).SyntaxError? && BraceSpan(reply).Some? && parse(BraceSpan(reply).value).SyntaxError? ==>
              r == Failure(parse(BraceSpan(reply).value).message)
  {
    match parse(reply)
    case Parsed(plan) => Success(plan)
    case SyntaxError(_) =>
      match BraceSpan(reply)
      case None => Failure(PlanJsonFailure)
      case Some(span) =>
        match parse(span)
        case Parsed(plan) => Success(plan)
        case SyntaxError(m) => Failure(m)
  }

  predicate HasPlan(s: State)
  {
    s.context.plan.Some?
  }

  function Tasks(s: State): seq<Task>
    requires HasPlan(s)
  {
    s.context.plan.value.tasks
  }

  /** Start of step `i`: record the index and emit "Executing Step i+1". */
  function Begin(s: State, i: nat): (r: State)
    requires HasPlan(s) && i < |Tasks(s)|
    ensures HasPlan(r) && Tasks(r) == Tasks(s)
  {
    var task := Tasks(s)[i];
    s.(context := s.context.(currentStepIndex := i),
       events := s.events + [Event(task.assignedAgent, ExecutingTitle(i), "Task: " + task.description)])
  }

  /**
   * End of a successful step `i`: emit "Step i+1 Complete", append the
   * step's entry to `globalOutput` and mark the task completed with its result.
   */
  function Complete(s: State, i: nat, result: string): (r: State)
    requires HasPlan(s) && i < |Tasks(s)|
    ensures HasPlan(r) && |Tasks(r)| == |Tasks(s)|
  {
    var plan := s.context.plan.value;
    var task := plan.tasks[i];
    s.(context := s.context.(plan := Some(plan.(tasks := plan.tasks[i := task.(status := Completed, result := Some(result))])),
                             globalOutput := s.context.globalOutput + [StepRecord(i, task.assignedAgent, result)]),
       events := s.events + [Event(task.assignedAgent, CompleteTitle(i), result)])
  }

  /** A worker's reply for step `i`: its text completes the step, its error stops the loop. */
  function Settle(s: State, i: nat, reply: Result<string, string>): (r: Step)
    requires HasPlan(s) && i < |Tasks(s)|
    ensures r.Next? ==> HasPlan(r.state) && |Tasks(r.state)| == |Tasks(s)|
  {
    match reply
    case Success(result) => Next(Complete(s, i, result))
    case Failure(m) => Halt(s, StepFailure(i, Tasks(s)[i].assignedAgent, m))
  }

  /** One iteration of the task loop (lines 75-111). */
  function RunTask(crew: Crew, s: State, i: nat, env: Env): (r: Step)
    requires HasPlan(s) && i < |Tasks(s)|
    ensures r.Next? ==> HasPlan(r.state) && |Tasks(r.state)| == |Tasks(s)|
  {
    var task := Tasks(s)[i];
    var s1 := Begin(s, i);
    var input := TaskPrompt(s1.context, task);
    match KindOf(task.assignedAgent)
    case Some(Reasoning) =>
      var c := Call(crew.reasoning, s1.reasoning, input, env.llm);
      Settle(s1.(reasoning := c.history), i, c.reply)
    case Some(DataQuery) =>
      var c := DataQuery.QueryCall(crew.dataQuery, s1.dataQuery, input, env);
      Settle(s1.(dataQuery := c.history), i, c.reply)
    case None =>
      Halt(s1, StepFailure(i, task.assignedAgent, UnknownAgentPrefix + task.assignedAgent))
  }

  /** The task loop from index `i` on: strictly in order, stopping at the first failure. */
  function RunTasks(crew: Crew, s: State, i: nat, env: Env): (r: Step)
    requires HasPlan(s) && i <= |Tasks(s)|
    ensures r.Next? ==> HasPlan(r.state) && |Tasks(r.state)| == |Tasks(s)|
    decreases |Tasks(s)| - i
  {
    if i == |Tasks(s)| then Next(s)
    else match RunTask(crew, s, i, env)
      case Halt(t, m) => Halt(t, m)
      case Next(t) => RunTasks(crew, t, i + 1, env)
  }

  /** Synthesis (lines 116-132): the final responder summarises `globalOutput`. */
  function Synthesize(crew: Crew, s: State, env: Env): Outcome
    requires HasPlan(s)
  {
    var s1 := s.(events := s.events + [Synthesizing]);
    var prompt := SynthesisPrompt(s.context.plan.value.objective, s.context.globalOutput);
    var c := Call(crew.finalResponder, s1.finalResponder, prompt, env.llm);
    var s2 := s1.(finalResponder := c.history);
    match c.reply
    case Success(answer) => Answered(s2, answer)
    case Failure(m) => Thrown(s2, FinalPrefix + m)
  }

  /** From a stored plan on: the task loop, then synthesis. */
  function Execute(crew: Crew, s: State, env: Env): Outcome
    requires HasPlan(s)
  {
    match RunTasks(crew, s, 0, env)
    case Halt(t, m) => Thrown(t, m)
    case Next(t) => Synthesize(crew, t, env)
  }

  /** Planning (lines 39-69): ask the planner, recover and check the plan, announce it. */
  function Plan(crew: Crew, s: State, input: string, env: Env): Outcome
  {
    var c := Call(crew.planner, s.planner, input, env.llm);
    var s1 := s.(planner := c.history);
    match c.reply
    case Failure(m) => Thrown(s1, PlanningPrefix + m)
    case Success(reply) =>
      match RecoverPlan(reply, env.parsePlan)
      case Failure(m) => Thrown(s1, m)
      case Success(None) => Thrown(s1.(context := s1.context.(plan := None)), InvalidPlan)
      case Success(Some(plan)) =>
        Execute(crew, s1.(context := s1.context.(plan := Some(plan)),
                          events := s1.events + [Event("planner", "Plan Generated", PlanSummary(plan))]), env)
  }

  /**
   * The `try` block of `handleRequest` (lines 25-132). The input is stored
   * first; a guardrail rejection throws before the planner is asked.
   */
  function Attempt(crew: Crew, s: State, input: string, env: Env): Outcome
  {
    var s1 := s.(context := s.context.(userInput := input), events := s.events + [SafetyCheck]);
    var verdict := ValidateInput(input, env.llm(ClassifierRequest(input)));
    if !verdict.passed then Thrown(s1, GuardrailPrefix + verdict.reason.value)
    else Plan(crew, s1.(events := s1.events + [PlanningEvent]), input, env)
  }

  /** `error.message || "Unknown System Error"`. */
  function ErrorReason(message: string): (r: string)
    ensures r != []
    ensures message != [] ==> r == message
  {
    if message == [] then UnknownSystemError else message
  }

  /**
   * `handleRequest(userInput)` as a function of the state before it: the
   * state after it and the answer. It never fails: the answer is the final
   * responder's, or the error agent's explanation of the message thrown,
   * and the error agent changes no state.
   */
  function Respond(crew: Crew, s: State, input: string, env: Env): (r: (State, string))
    ensures r.0 == Attempt(crew, s, input, env).state
    ensures Attempt(crew, s, input, env).Answered? ==> r.1 == Attempt(crew, s, input, env).answer
    ensures Attempt(crew, s, input, env).Thrown? ==>
              r.1 == ProcessError(crew.errorHandler, input, ErrorReason(Attempt(crew, s, input, env).message), env.llm)
  {
    match Attempt(crew, s, input, env)
    case Answered(t, answer) => (t, answer)
    case Thrown(t, m) => (t, ProcessError(crew.errorHandler, input, ErrorReason(m), env.llm))
  }

  /** The orchestrator object: its context, the events it has emitted and the agents it drives. */
  class Orchestrator {
    var context: GlobalContext
    var events: seq<Event>
    const planner: Agent
    const reasoning: Agent
    const dataQuery: Agent
    const finalResponder: Agent
    const errorHandler: Agent

    /** The four agents whose histories a request extends are different objects. */
    predicate Valid()
    {
      planner != reasoning && planner != dataQuery && planner != finalResponder
      && reasoning != dataQuery && reasoning != finalResponder && dataQuery != finalResponder
    }

    function Configs(): Crew
    {
      Crew(planner.config, reasoning.config, dataQuery.config, finalResponder.config, errorHandler.config)
    }

    function Snapshot(): State
      reads this, planner, reasoning, dataQuery, finalResponder
    {
      State(context, events, planner.history, reasoning.history, dataQuery.history, finalResponder.history)
    }

    /**
     * A new orchestrator (lines 13-21): an empty context and no events. The
     * agents are the shared module-level instances, passed in; the
     * constructor leaves their histories as they are.
     */
    constructor(planner: Agent, reasoning: Agent, dataQuery: Agent, finalResponder: Agent, errorHandler: Agent)
      requires planner != reasoning && planner != dataQuery && planner != finalResponder
      requires reasoning != dataQuery && reasoning != finalResponder && dataQuery != finalResponder
      ensures Valid()
      ensures this.planner == planner && this.reasoning == reasoning && this.dataQuery == dataQuery
      ensures this.finalResponder == finalResponder && this.errorHandler == errorHandler
      ensures Snapshot() == State(InitialContext, [], planner.history, reasoning.history,
                                  dataQuery.history, finalResponder.history)
    {
      context := InitialContext;
      events := [];
      this.planner := planner;
      this.reasoning := reasoning;
      this.dataQuery := dataQuery;
      this.finalResponder := finalResponder;
      this.errorHandler := errorHandler;
    }

    /** `emit('progress', e)`: appended to the stream, nothing else changes. */
    method Emit(e: Event)
      modifies this
      ensures events == old(events) + [e] && context == old(context)
    {
      events := events + [e];
    }

    /** One iteration of the task loop, on the fields and the agents. */
    method ExecuteStep(i: nat, env: Env) returns (failure: Option<string>)
      requires Valid() && HasPlan(Snapshot()) && i < |Tasks(Snapshot())|
      modifies this, reasoning, dataQuery
      ensures RunTask(Configs(), old(Snapshot()), i, env)
              == if failure.None? then Next(Snapshot()) else Halt(Snapshot(), failure.value)
    {
      context := context.(currentStepIndex := i);
      var task := context.plan.value.tasks[i];
      Emit(Event(task.assignedAgent, ExecutingTitle(i), "Task: " + task.description));
      var input := TaskPrompt(context, task);
      var reply: Result<string, string>;
      if task.assignedAgent == "reasoning" {
        reply := reasoning.Process(input, env.llm);
      } else if task.assignedAgent == "data-query" {
        reply := DataQuery.Process(dataQuery, input, env);
      } else {
        return Some(StepFailure(i, task.assignedAgent, UnknownAgentPrefix + task.assignedAgent));
      }
      match reply {
        case Failure(m) =>
          failure := Some(StepFailure(i, task.assignedAgent, m));
        case Success(result) =>
          Emit(Event(task.assignedAgent, CompleteTitle(i), result));
          var plan := context.plan.value;
          context := context.(plan := Some(plan.(tasks := plan.tasks[i := task.(status := Completed, result := Some(result))])),
                              globalOutput := context.globalOutput + [StepRecord(i, task.assignedAgent, result)]);
          failure := None;
      }
    }

    /** The `for` loop over the plan's tasks (lines 74-112). */
    method ExecuteTasks(env: Env) returns (failure: Option<string>)
      requires Valid() && HasPlan(Snapshot())
      modifies this, reasoning, dataQuery
      ensures RunTasks(Configs(), old(Snapshot()), 0, env)
              == if failure.None? then Next(Snapshot()) else Halt(Snapshot(), failure.value)
    {
      var n := |context.plan.value.tasks|;
      var i := 0;
      while i < n
        invariant 0 <= i <= n
        invariant HasPlan(Snapshot()) && |Tasks(Snapshot())| == n
        invariant RunTasks(Configs(), old(Snapshot()), 0, env) == RunTasks(Configs(), Snapshot(), i, env)
      {
        var before := Snapshot();
        failure := ExecuteStep(i, env);
        if failure.Some? {
          return;
        }
        assert RunTasks(Configs(), before, i, env) == RunTasks(Configs(), Snapshot(), i + 1, env);
        i := i + 1;
      }
      failure := None;
    }

    /** Synthesis, after every task has completed. */
    method SynthesizeAnswer(env: Env) returns (r: Result<string, string>)
      requires Valid() && HasPlan(Snapshot())
      modifies this, finalResponder
      ensures Synthesize(Configs(), old(Snapshot()), env)
              == if r.Success? then Answered(Snapshot(), r.value) else Thrown(Snapshot(), r.error)
    {
      var objective := context.plan.value.objective;
      Emit(Synthesizing);
      var answer := finalResponder.Process(SynthesisPrompt(objective, context.globalOutput), env.llm);
      if answer.Failure? {
        return Failure(FinalPrefix + answer.error);
      }
      r := Success(answer.value);
    }

    /** The task loop, then synthesis. */
    method ExecutePlan(env: Env) returns (r: Result<string, string>)
      requires Valid() && HasPlan(Snapshot())
      modifies this, reasoning, dataQuery, finalResponder
      ensures Execute(Configs(), old(Snapshot()), env)
              == if r.Success? then Answered(Snapshot(), r.value) else Thrown(Snapshot(), r.error)
    {
      var failure := ExecuteTasks(env);
      if failure.Some? {
        return Failure(failure.value);
      }
      r := SynthesizeAnswer(env);
    }

    /** Planning: ask the planner, recover and check the plan, announce it and carry it out. */
    method PlanAndExecute(input: string, env: Env) returns (r: Result<string, string>)
      requires Valid()
      modifies this, planner, reasoning, dataQuery, finalResponder
      ensures Plan(Configs(), old(Snapshot()), input, env)
              == if r.Success? then Answered(Snapshot(), r.value) else Thrown(Snapshot(), r.error)
    {
      var planned := planner.Process(input, env.llm);
      if planned.Failure? {
        return Failure(PlanningPrefix + planned.error);
      }
      var recovered := RecoverPlan(planned.value, env.parsePlan);
      if recovered.Failure? {
        return Failure(recovered.error);
      }
      context := context.(plan := recovered.value);
      if recovered.value.None? {
        return Failure(InvalidPlan);
      }
      Emit(Event("planner", "Plan Generated", PlanSummary(recovered.value.value)));
      r := ExecutePlan(env);
    }

    /** The `try` block of `handleRequest`: the answer, or the message thrown. */
    method Run(input: string, env: Env) returns (r: Result<string, string>)
      requires Valid()
      modifies this, planner, reasoning, dataQuery, finalResponder
      ensures Attempt(Configs(), old(Snapshot()), input, env)
              == if r.Success? then Answered(Snapshot(), r.value) else Thrown(Snapshot(), r.error)
    {
      context := context.(userInput := input);
      Emit(SafetyCheck);
      var verdict := ValidateInput(input, env.llm(ClassifierRequest(input)));
      if !verdict.passed {
        return Failure(GuardrailPrefix + verdict.reason.value);
      }
      Emit(PlanningEvent);
      r := PlanAndExecute(input, env);
    }

    /** `handleRequest(userInput)`: always answers, with the state change `Respond` describes. */
    method HandleRequest(input: string, env: Env) returns (answer: string)
      requires Valid()
      modifies this, planner, reasoning, dataQuery, finalResponder
      ensures (Snapshot(), answer) == Respond(Configs(), old(Snapshot()), input, env)
    {
      var r := Run(input, env);
      match r {
        case Success(a) =>
          answer := a;
        case Failure(m) =>
          answer := ProcessError(errorHandler.config, input, ErrorReason(m), env.llm);
      }
    }
  }
}
