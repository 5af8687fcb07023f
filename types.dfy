/**
 * The records the orchestrator manipulates: tasks, the plan and the
 * conversation context (src/types.ts).
 */
module Types {
  import opened Wrappers

  /** The two worker kinds a task may be assigned to. */
  datatype AgentKind = Reasoning | DataQuery {
    /** The name a plan uses for this kind. */
    function Name(): string
    {
      match this
      case Reasoning => "reasoning"
      case DataQuery => "data-query"
    }
  }

  /**
   * Reads a worker name as it appears in a parsed plan. The declared type
   * admits two names, but a parsed plan may carry any string.
   */
  function KindOf(name: string): (r: Option<AgentKind>)
    ensures forall k: AgentKind :: r == Some(k) <==> k.Name() == name
    ensures r.None? <==> name != "reasoning" && name != "data-query"
  {
    if name == "reasoning" then Some(Reasoning)
    else if name == "data-query" then Some(DataQuery)
    else None
  }

  datatype TaskStatus = Pending | InProgress | Completed | Failed

  /**
   * One step of a plan. `assignedAgent` is kept as the text the planner
   * produced; `WellTyped` says it names one of the two worker kinds.
   */
  datatype Task = Task(id: string, description: string, assignedAgent: string, status: TaskStatus, result: Option<string>)
  {
    predicate WellTyped()
    {
      KindOf(assignedAgent).Some?
    }
  }

  /** An objective and its ordered task list. */
  datatype GlobalPlan = GlobalPlan(objective: string, tasks: seq<Task>)

  /** The orchestrator's mutable context; `plan` is absent until a request sets it. */
  datatype GlobalContext = GlobalContext(userInput: string, plan: Option<GlobalPlan>, currentStepIndex: nat, globalOutput: seq<string>)
}
