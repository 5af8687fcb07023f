/**
 * What `handleRequest` guarantees, stated over the pipeline functions of
 * `Orchestration`: the order of the event stream, the fate of the tasks and
 * of `globalOutput`, the early exit of a guardrail rejection and the plan
 * recovery rule.
 */
module PipelineProperties {
  import opened Wrappers
  import opened Text
  import opened Types
  import opened External
  import opened Agents
  import opened Guardrails
  import opened Orchestration
  import DataQuery

  /** The titles of an event stream, in order. */
  function Titles(es: seq<Event>): (r: seq<string>)
    ensures |r| == |es|
  {
    seq(|es|, k requires 0 <= k < |es| => es[k].title)
  }

  /** One more event adds its title at the end. */
  lemma TitlesPush(a: seq<Event>, e: Event)
    ensures Titles(a + [e]) == Titles(a) + [e.title]
  {
  }

  lemma TitlesAppend(a: seq<Event>, b: seq<Event>)
    ensures Titles(a + b) == Titles(a) + Titles(b)
  {
    assert forall k :: 0 <= k < |b| ==> (a + b)[|a| + k] == b[k];
  }

  /** Moving one element across a concatenation. */
  lemma AppendRegroup<T>(a: seq<T>, x: T, b: seq<T>)
    ensures (a + [x]) + b == a + ([x] + b)
  {
  }

  /** Moving a block across a concatenation. */
  lemma Reassociate<T>(a: seq<T>, b: seq<T>, c: seq<T>)
    ensures (a + b) + c == a + (b + c)
  {
  }

  /** Regrouping a concatenation of four sequences. */
  lemma Regroup<T>(a: seq<T>, b: seq<T>, c: seq<T>, d: seq<T>)
    ensures a + b + c + d == a + (b + c) + d
  {
  }

  /** "Executing Step k", "Step k Complete" for the steps `i` up to, not including, `k`. */
  function StepTitles(i: nat, k: nat): (r: seq<string>)
    ensures |r| == if i <= k then 2 * (k - i) else 0
    decreases k - i
  {
    if i >= k then [] else [ExecutingTitle(i), CompleteTitle(i)] + StepTitles(i + 1, k)
  }

  /** The text a task's result prints as; an absent result never occurs for a finished task. */
  function ResultText(t: Task): string
  {
    if t.result.Some? then t.result.value else ""
  }

  /** The `globalOutput` entries of the tasks from `lo` up to, not including, `hi`, in order. */
  function Records(tasks: seq<Task>, lo: nat, hi: nat): (r: seq<string>)
    requires hi <= |tasks|
    ensures |r| == if lo <= hi then hi - lo else 0
    decreases hi - lo
  {
    if lo >= hi then [] else [StepRecord(lo, tasks[lo].assignedAgent, ResultText(tasks[lo]))] + Records(tasks, lo + 1, hi)
  }

  /**
   * What a task step leaves alone: the request's input and objective, the
   * planner and final responder histories, and each task's description
   * and agent.
   */
  predicate Frame(s: State, t: State)
    requires HasPlan(s) && HasPlan(t)
  {
    t.context.userInput == s.context.userInput
    && t.context.plan.value.objective == s.context.plan.value.objective
    && t.planner == s.planner && t.finalResponder == s.finalResponder
    && |Tasks(t)| == |Tasks(s)|
    && forall j :: 0 <= j < |Tasks(s)| ==>
         Tasks(t)[j].description == Tasks(s)[j].description && Tasks(t)[j].assignedAgent == Tasks(s)[j].assignedAgent
  }

  /**
   * The reply of the worker a task is dispatched to (lines 86-99), asked
   * from the state before the step: a turn of the reasoning agent, a turn
   * of the data-query wrapper, or the unknown-agent error.
   */
  function WorkerReply(crew: Crew, s: State, i: nat, env: Env): Result<string, string>
    requires HasPlan(s) && i < |Tasks(s)|
  {
    var task := Tasks(s)[i];
    var prompt := TaskPrompt(s.context.(currentStepIndex := i), task);
    match KindOf(task.assignedAgent)
    case Some(Reasoning) => Call(crew.reasoning, s.reasoning, prompt, env.llm).reply
    case Some(DataQuery) => DataQuery.QueryCall(crew.dataQuery, s.dataQuery, prompt, env).reply
    case None => Failure(UnknownAgentPrefix + task.assignedAgent)
  }

  /**
   * A step completes exactly when its worker answers; the answer becomes
   * the task's result, and a failure becomes the step's message.
   */
  lemma StepRunsWorker(crew: Crew, s: State, i: nat, env: Env)
    requires HasPlan(s) && i < |Tasks(s)|
    ensures RunTask(crew, s, i, env).Next? <==> WorkerReply(crew, s, i, env).Success?
    ensures RunTask(crew, s, i, env).Next? ==>
              Tasks(RunTask(crew, s, i, env).state)[i].result == Some(WorkerReply(crew, s, i, env).value)
    ensures RunTask(crew, s, i, env).Halt? ==>
              RunTask(crew, s, i, env).message
              == StepFailure(i, Tasks(s)[i].assignedAgent, WorkerReply(crew, s, i, env).error)
  {
  }

  /**
   * A step that completes names a known worker and marks only its own task
   * completed, with the worker's text as result.
   */
  lemma StepCompletes(crew: Crew, s: State, i: nat, env: Env)
    requires HasPlan(s) && i < |Tasks(s)| && RunTask(crew, s, i, env).Next?
    ensures var t := RunTask(crew, s, i, env).state;
      HasPlan(t) && Frame(s, t)
      && KindOf(Tasks(s)[i].assignedAgent).Some?
      && Tasks(t)[i].status == Completed && Tasks(t)[i].result.Some?
      && (forall j :: 0 <= j < |Tasks(s)| && j != i ==> Tasks(t)[j] == Tasks(s)[j])
      && t.context.currentStepIndex == i
    ensures WorkerReply(crew, s, i, env).Success?
    ensures Tasks(RunTask(crew, s, i, env).state)[i].result == Some(WorkerReply(crew, s, i, env).value)
  {
    StepRunsWorker(crew, s, i, env);
  }

  /** A step that completes emits "Executing Step k" and "Step k Complete". */
  lemma StepCompletesEvents(crew: Crew, s: State, i: nat, env: Env)
    requires HasPlan(s) && i < |Tasks(s)| && RunTask(crew, s, i, env).Next?
    ensures Titles(RunTask(crew, s, i, env).state.events) == Titles(s.events) + [ExecutingTitle(i), CompleteTitle(i)]
  {
    var task := Tasks(s)[i];
    var s1 := Begin(s, i);
    var e1 := Event(task.assignedAgent, ExecutingTitle(i), "Task: " + task.description);
    var e2 := RunTask(crew, s, i, env).state.events[|s.events| + 1];
    assert RunTask(crew, s, i, env).state.events == s.events + [e1] + [e2];
    TitlesPush(s.events, e1);
    TitlesPush(s.events + [e1], e2);
  }

  /** A step that completes appends exactly its own entry to `globalOutput`. */
  lemma StepCompletesOutput(crew: Crew, s: State, i: nat, env: Env)
    requires HasPlan(s) && i < |Tasks(s)| && RunTask(crew, s, i, env).Next?
    ensures var t := RunTask(crew, s, i, env).state;
      HasPlan(t) && i < |Tasks(t)|
      && t.context.globalOutput == s.context.globalOutput + [StepRecord(i, Tasks(t)[i].assignedAgent, ResultText(Tasks(t)[i]))]
  {
  }

  /**
   * A step that fails leaves `globalOutput` and every task as they were,
   * and throws a message that names the step and its agent.
   */
  lemma StepFails(crew: Crew, s: State, i: nat, env: Env)
    requires HasPlan(s) && i < |Tasks(s)| && RunTask(crew, s, i, env).Halt?
    ensures var t := RunTask(crew, s, i, env).state;
      HasPlan(t) && Frame(s, t) && Tasks(t) == Tasks(s)
      && t.context.globalOutput == s.context.globalOutput
      && t.context.currentStepIndex == i
      && StartsWith(RunTask(crew, s, i, env).message, StepFailurePrefix(i, Tasks(s)[i].assignedAgent))
    ensures WorkerReply(crew, s, i, env).Failure?
    ensures RunTask(crew, s, i, env).message
            == StepFailure(i, Tasks(s)[i].assignedAgent, WorkerReply(crew, s, i, env).error)
  {
    StepRunsWorker(crew, s, i, env);
  }

  /** A step that fails has emitted only its "Executing" event. */
  lemma StepFailsEvents(crew: Crew, s: State, i: nat, env: Env)
    requires HasPlan(s) && i < |Tasks(s)| && RunTask(crew, s, i, env).Halt?
    ensures Titles(RunTask(crew, s, i, env).state.events) == Titles(s.events) + [ExecutingTitle(i)]
  {
    var task := Tasks(s)[i];
    TitlesPush(s.events, Event(task.assignedAgent, ExecutingTitle(i), "Task: " + task.description));
  }

  /** One completed step hands the rest of the loop to the next index. */
  lemma StepThenRest(crew: Crew, s: State, i: nat, env: Env)
    requires HasPlan(s) && i < |Tasks(s)| && RunTask(crew, s, i, env).Next?
    ensures var s1 := RunTask(crew, s, i, env).state;
      HasPlan(s1) && |Tasks(s1)| == |Tasks(s)| && RunTasks(crew, s, i, env) == RunTasks(crew, s1, i + 1, env)
  {
  }

  /** A failed step ends the loop with its own state and message. */
  lemma StepThenStop(crew: Crew, s: State, i: nat, env: Env)
    requires HasPlan(s) && i < |Tasks(s)| && RunTask(crew, s, i, env).Halt?
    ensures RunTasks(crew, s, i, env) == RunTask(crew, s, i, env)
  {
  }

  /** `Frame` composes. */
  lemma FrameTrans(s: State, s1: State, t: State)
    requires HasPlan(s) && HasPlan(s1) && HasPlan(t) && Frame(s, s1) && Frame(s1, t)
    ensures Frame(s, t)
  {
  }

  /**
   * One completed step `i` followed by a run that completed the rest:
   * everything from `i` on is completed and nothing before `i` changed.
   */
  lemma CompletionStep(a: seq<Task>, b: seq<Task>, c: seq<Task>, i: nat)
    requires |b| == |a| && |c| == |a| && i < |a|
    requires b[i].status == Completed && b[i].result.Some?
    requires forall j :: 0 <= j < |a| && j != i ==> b[j] == a[j]
    requires forall j :: i + 1 <= j < |a| ==> c[j].status == Completed && c[j].result.Some?
    requires forall j :: 0 <= j < i + 1 ==> c[j] == b[j]
    ensures forall j :: i <= j < |a| ==> c[j].status == Completed && c[j].result.Some?
    ensures forall j :: 0 <= j < i ==> c[j] == a[j]
  {
  }

  /**
   * A loop that runs to the end from step `i`: every task from `i` on
   * completed with a result, the earlier ones untouched.
   */
  lemma {:induction false} TasksSucceed(crew: Crew, s: State, i: nat, env: Env)
    requires HasPlan(s) && i <= |Tasks(s)| && RunTasks(crew, s, i, env).Next?
    ensures var t := RunTasks(crew, s, i, env).state;
      HasPlan(t) && Frame(s, t)
      && (forall j :: i <= j < |Tasks(s)| ==> Tasks(t)[j].status == Completed && Tasks(t)[j].result.Some?)
      && (forall j :: 0 <= j < i ==> Tasks(t)[j] == Tasks(s)[j])
    decreases |Tasks(s)| - i
  {
    hide RunTask;
    if i < |Tasks(s)| {
      StepCompletes(crew, s, i, env);
      StepThenRest(crew, s, i, env);
      var s1 := RunTask(crew, s, i, env).state;
      TasksSucceed(crew, s1, i + 1, env);
      var t := RunTasks(crew, s1, i + 1, env).state;
      FrameTrans(s, s1, t);
      CompletionStep(Tasks(s), Tasks(s1), Tasks(t), i);
    }
  }

  /** The loop from step `i` up to, not including, step `k`, stopping at the first failure. */
  function RunTasksTo(crew: Crew, s: State, i: nat, k: nat, env: Env): (r: Step)
    requires HasPlan(s) && i <= k <= |Tasks(s)|
    ensures r.Next? ==> HasPlan(r.state) && |Tasks(r.state)| == |Tasks(s)|
    decreases k - i
  {
    if i == k then Next(s)
    else match RunTask(crew, s, i, env)
      case Halt(t, m) => Halt(t, m)
      case Next(t) => RunTasksTo(crew, t, i + 1, k, env)
  }

  /**
   * A loop that runs to the end from step `i` stores, as the result of each
   * task `j`, the reply its worker gave in the state the loop had reached
   * after the steps before `j`.
   */
  lemma {:induction false} TasksStoreReplies(crew: Crew, s: State, i: nat, env: Env)
    requires HasPlan(s) && i <= |Tasks(s)| && RunTasks(crew, s, i, env).Next?
    ensures forall j :: i <= j < |Tasks(s)| ==>
              RunTasksTo(crew, s, i, j, env).Next?
              && WorkerReply(crew, RunTasksTo(crew, s, i, j, env).state, j, env).Success?
              && Tasks(RunTasks(crew, s, i, env).state)[j].result
                 == Some(WorkerReply(crew, RunTasksTo(crew, s, i, j, env).state, j, env).value)
    decreases |Tasks(s)| - i
  {
    hide RunTask;
    if i < |Tasks(s)| {
      StepCompletes(crew, s, i, env);
      StepThenRest(crew, s, i, env);
      var s1 := RunTask(crew, s, i, env).state;
      TasksStoreReplies(crew, s1, i + 1, env);
      TasksSucceed(crew, s1, i + 1, env);
      forall j | i <= j < |Tasks(s)|
        ensures RunTasksTo(crew, s, i, j, env).Next?
                && WorkerReply(crew, RunTasksTo(crew, s, i, j, env).state, j, env).Success?
                && Tasks(RunTasks(crew, s, i, env).state)[j].result
                   == Some(WorkerReply(crew, RunTasksTo(crew, s, i, j, env).state, j, env).value)
      {
        if j == i {
          assert RunTasksTo(crew, s, i, i, env) == Next(s);
        } else {
          assert RunTasksTo(crew, s, i, j, env) == RunTasksTo(crew, s1, i + 1, j, env);
        }
      }
    }
  }

  /** A loop that runs to the end from step `i` emits the two events of each task, in index order. */
  lemma {:induction false} TasksSucceedEvents(crew: Crew, s: State, i: nat, env: Env)
    requires HasPlan(s) && i <= |Tasks(s)| && RunTasks(crew, s, i, env).Next?
    ensures Titles(RunTasks(crew, s, i, env).state.events) == Titles(s.events) + StepTitles(i, |Tasks(s)|)
    decreases |Tasks(s)| - i
  {
    hide RunTask;
    if i < |Tasks(s)| {
      StepCompletesEvents(crew, s, i, env);
      StepThenRest(crew, s, i, env);
      var s1 := RunTask(crew, s, i, env).state;
      TasksSucceedEvents(crew, s1, i + 1, env);
      var pair := [ExecutingTitle(i), CompleteTitle(i)];
      assert StepTitles(i, |Tasks(s)|) == pair + StepTitles(i + 1, |Tasks(s)|);
      Reassociate(Titles(s.events), pair, StepTitles(i + 1, |Tasks(s)|));
    } else {
      assert StepTitles(i, |Tasks(s)|) == [];
    }
  }

  /** The recursion of `Records`, one step at a time. */
  lemma RecordsUnfold(tasks: seq<Task>, lo: nat, hi: nat)
    requires lo < hi <= |tasks|
    ensures Records(tasks, lo, hi) == [StepRecord(lo, tasks[lo].assignedAgent, ResultText(tasks[lo]))] + Records(tasks, lo + 1, hi)
  {
  }

  /**
   * A loop that runs to the end from step `i` appends one `globalOutput`
   * entry per task, in index order, after the existing ones.
   */
  lemma {:induction false} TasksSucceedOutput(crew: Crew, s: State, i: nat, env: Env)
    requires HasPlan(s) && i <= |Tasks(s)| && RunTasks(crew, s, i, env).Next?
    ensures var t := RunTasks(crew, s, i, env).state;
      t.context.globalOutput == s.context.globalOutput + Records(Tasks(t), i, |Tasks(t)|)
    decreases |Tasks(s)| - i
  {
    hide RunTask;
    if i < |Tasks(s)| {
      StepThenRest(crew, s, i, env);
      var s1 := RunTask(crew, s, i, env).state;
      var t := RunTasks(crew, s1, i + 1, env).state;
      StepCompletesOutput(crew, s, i, env);
      assert Tasks(t)[i] == Tasks(s1)[i] by {
        TasksSucceed(crew, s1, i + 1, env);
      }
      TasksSucceedOutput(crew, s1, i + 1, env);
      RecordsUnfold(Tasks(t), i, |Tasks(t)|);
      AppendRegroup(s.context.globalOutput, StepRecord(i, Tasks(t)[i].assignedAgent, ResultText(Tasks(t)[i])),
                    Records(Tasks(t), i + 1, |Tasks(t)|));
    } else {
      assert Records(Tasks(s), i, i) == [];
    }
  }

  /**
   * One completed step `i` followed by a run that stopped at step `k`:
   * nothing before `i` or from `k` on changed, every task is completed or
   * unchanged.
   */
  lemma HaltStep(a: seq<Task>, b: seq<Task>, c: seq<Task>, i: nat, k: nat)
    requires |b| == |a| && |c| == |a| && i < k < |a|
    requires b[i].status == Completed
    requires forall j :: 0 <= j < |a| && j != i ==> b[j] == a[j]
    requires forall j :: 0 <= j < i + 1 ==> c[j] == b[j]
    requires forall j :: k <= j < |a| ==> c[j] == b[j]
    requires forall j :: 0 <= j < |a| ==> c[j].status == Completed || c[j] == b[j]
    requires b[i].result.Some?
    requires forall j :: i + 1 <= j < k ==> c[j].status == Completed && c[j].result.Some?
    ensures b[k] == a[k]
    ensures forall j :: 0 <= j < i ==> c[j] == a[j]
    ensures forall j :: k <= j < |a| ==> c[j] == a[j]
    ensures forall j :: 0 <= j < |a| ==> c[j].status == Completed || c[j] == a[j]
    ensures forall j :: i <= j < k ==> c[j].status == Completed && c[j].result.Some?
  {
  }

  /**
   * A loop that stops does so at the step recorded in `currentStepIndex`:
   * no task from there on was changed, every step between the start and
   * the failed one completed its task with a result, and the message names
   * the failed step and its agent.
   */
  lemma {:induction false} TasksHalt(crew: Crew, s: State, i: nat, env: Env)
    requires HasPlan(s) && i <= |Tasks(s)| && RunTasks(crew, s, i, env).Halt?
    ensures var t := RunTasks(crew, s, i, env).state;
      var k := t.context.currentStepIndex;
      HasPlan(t) && Frame(s, t) && i <= k < |Tasks(s)|
      && (forall j :: 0 <= j < i ==> Tasks(t)[j] == Tasks(s)[j])
      && (forall j :: k <= j < |Tasks(s)| ==> Tasks(t)[j] == Tasks(s)[j])
      && (forall j :: 0 <= j < |Tasks(s)| ==> Tasks(t)[j].status == Completed || Tasks(t)[j] == Tasks(s)[j])
      && (forall j :: i <= j < k ==> Tasks(t)[j].status == Completed && Tasks(t)[j].result.Some?)
      && StartsWith(RunTasks(crew, s, i, env).message, StepFailurePrefix(k, Tasks(s)[k].assignedAgent))
    decreases |Tasks(s)| - i
  {
    hide RunTask;
    assert i < |Tasks(s)|;
    if RunTask(crew, s, i, env).Halt? {
      StepFails(crew, s, i, env);
      StepThenStop(crew, s, i, env);
    } else {
      StepCompletes(crew, s, i, env);
      StepThenRest(crew, s, i, env);
      var s1 := RunTask(crew, s, i, env).state;
      TasksHalt(crew, s1, i + 1, env);
      var t := RunTasks(crew, s1, i + 1, env).state;
      FrameTrans(s, s1, t);
      HaltStep(Tasks(s), Tasks(s1), Tasks(t), i, t.context.currentStepIndex);
    }
  }

  /**
   * A loop that stops at step `k` has stored, as the result of each task
   * `j` before `k`, the reply its worker gave in the state the loop had
   * reached after the steps before `j`; step `k`'s worker failed in the
   * state reached before it, and the loop's message is that failure.
   */
  lemma {:induction false} TasksHaltStoreReplies(crew: Crew, s: State, i: nat, env: Env)
    requires HasPlan(s) && i <= |Tasks(s)| && RunTasks(crew, s, i, env).Halt?
    ensures var t := RunTasks(crew, s, i, env).state;
      var k := t.context.currentStepIndex;
      HasPlan(t) && |Tasks(t)| == |Tasks(s)| && i <= k < |Tasks(s)|
      && (forall j :: i <= j < k ==>
            RunTasksTo(crew, s, i, j, env).Next?
            && WorkerReply(crew, RunTasksTo(crew, s, i, j, env).state, j, env).Success?
            && Tasks(t)[j].result == Some(WorkerReply(crew, RunTasksTo(crew, s, i, j, env).state, j, env).value))
      && RunTasksTo(crew, s, i, k, env).Next?
      && WorkerReply(crew, RunTasksTo(crew, s, i, k, env).state, k, env).Failure?
      && RunTasks(crew, s, i, env).message
         == StepFailure(k, Tasks(s)[k].assignedAgent, WorkerReply(crew, RunTasksTo(crew, s, i, k, env).state, k, env).error)
    decreases |Tasks(s)| - i
  {
    hide RunTask;
    assert i < |Tasks(s)|;
    if RunTask(crew, s, i, env).Halt? {
      StepFails(crew, s, i, env);
      StepThenStop(crew, s, i, env);
      assert RunTasksTo(crew, s, i, i, env) == Next(s);
    } else {
      StepCompletes(crew, s, i, env);
      StepThenRest(crew, s, i, env);
      var s1 := RunTask(crew, s, i, env).state;
      TasksHaltStoreReplies(crew, s1, i + 1, env);
      TasksHalt(crew, s1, i + 1, env);
      var t := RunTasks(crew, s1, i + 1, env).state;
      var k := t.context.currentStepIndex;
      assert RunTasksTo(crew, s, i, k, env) == RunTasksTo(crew, s1, i + 1, k, env);
      assert Tasks(s1)[k] == Tasks(s)[k];
      forall j | i <= j < k
        ensures RunTasksTo(crew, s, i, j, env).Next?
                && WorkerReply(crew, RunTasksTo(crew, s, i, j, env).state, j, env).Success?
                && Tasks(t)[j].result == Some(WorkerReply(crew, RunTasksTo(crew, s, i, j, env).state, j, env).value)
      {
        if j == i {
          assert RunTasksTo(crew, s, i, i, env) == Next(s);
        } else {
          assert RunTasksTo(crew, s, i, j, env) == RunTasksTo(crew, s1, i + 1, j, env);
        }
      }
    }
  }

  /**
   * The events of a loop that stops at step k: both events of every
   * earlier step, in order, then only "Executing Step k".
   */
  lemma {:induction false} TasksHaltEvents(crew: Crew, s: State, i: nat, env: Env)
    requires HasPlan(s) && i <= |Tasks(s)| && RunTasks(crew, s, i, env).Halt?
    ensures var t := RunTasks(crew, s, i, env).state;
      var k := t.context.currentStepIndex;
      i <= k && Titles(t.events) == Titles(s.events) + StepTitles(i, k) + [ExecutingTitle(k)]
    decreases |Tasks(s)| - i
  {
    hide RunTask;
    assert i < |Tasks(s)|;
    if RunTask(crew, s, i, env).Halt? {
      StepFails(crew, s, i, env);
      StepFailsEvents(crew, s, i, env);
      StepThenStop(crew, s, i, env);
      assert StepTitles(i, i) == [];
    } else {
      StepCompletesEvents(crew, s, i, env);
      StepThenRest(crew, s, i, env);
      var s1 := RunTask(crew, s, i, env).state;
      TasksHaltEvents(crew, s1, i + 1, env);
      var k := RunTasks(crew, s1, i + 1, env).state.context.currentStepIndex;
      var pair := [ExecutingTitle(i), CompleteTitle(i)];
      assert StepTitles(i, k) == pair + StepTitles(i + 1, k);
      Regroup(Titles(s.events), pair, StepTitles(i + 1, k), [ExecutingTitle(k)]);
    }
  }

  /**
   * The `globalOutput` of a loop that stops at step k: the entries of the
   * completed steps before k, appended in order, and none for step k.
   */
  lemma {:induction false} TasksHaltOutput(crew: Crew, s: State, i: nat, env: Env)
    requires HasPlan(s) && i <= |Tasks(s)| && RunTasks(crew, s, i, env).Halt?
    ensures var t := RunTasks(crew, s, i, env).state;
      var k := t.context.currentStepIndex;
      HasPlan(t) && i <= k <= |Tasks(t)|
      && t.context.globalOutput == s.context.globalOutput + Records(Tasks(t), i, k)
    decreases |Tasks(s)| - i
  {
    hide RunTask;
    assert i < |Tasks(s)|;
    if RunTask(crew, s, i, env).Halt? {
      StepFails(crew, s, i, env);
      StepThenStop(crew, s, i, env);
      var t := RunTask(crew, s, i, env).state;
      assert Records(Tasks(t), i, i) == [];
      assert s.context.globalOutput + [] == s.context.globalOutput;
    } else {
      StepThenRest(crew, s, i, env);
      StepCompletesOutput(crew, s, i, env);
      var s1 := RunTask(crew, s, i, env).state;
      TasksHaltOutput(crew, s1, i + 1, env);
      var t := RunTasks(crew, s1, i + 1, env).state;
      var k := t.context.currentStepIndex;
      assert i < k && Tasks(t)[i] == Tasks(s1)[i] by {
        TasksHalt(crew, s1, i + 1, env);
      }
      RecordsUnfold(Tasks(t), i, k);
      AppendRegroup(s.context.globalOutput, StepRecord(i, Tasks(t)[i].assignedAgent, ResultText(Tasks(t)[i])),
                    Records(Tasks(t), i + 1, k));
    }
  }

  /** Tasks run in index order, so a task naming an unknown agent stops the loop at or before it. */
  lemma {:induction false} UnknownAgentStops(crew: Crew, s: State, i: nat, k: nat, env: Env)
    requires HasPlan(s) && i <= k < |Tasks(s)| && KindOf(Tasks(s)[k].assignedAgent).None?
    ensures RunTasks(crew, s, i, env).Halt?
    ensures RunTasks(crew, s, i, env).state.context.currentStepIndex <= k
    decreases k - i
  {
    hide RunTask;
    if RunTask(crew, s, i, env).Next? {
      StepCompletes(crew, s, i, env);
      StepThenRest(crew, s, i, env);
      var s1 := RunTask(crew, s, i, env).state;
      assert i != k;
      UnknownAgentStops(crew, s1, i + 1, k, env);
    } else {
      StepFails(crew, s, i, env);
      StepThenStop(crew, s, i, env);
    }
  }

  /**
   * A request the guardrail rejects: only "Safety Check" is emitted, no
   * agent is asked (every history is unchanged), and the error agent
   * explains "Guardrail Violation: " and the reason.
   */
  lemma GuardrailRejection(crew: Crew, s: State, input: string, env: Env)
    requires !ValidateInput(input, env.llm(ClassifierRequest(input))).passed
    ensures var reason := ValidateInput(input, env.llm(ClassifierRequest(input))).reason.value;
      var t := Respond(crew, s, input, env).0;
      t.events == s.events + [SafetyCheck]
      && t.planner == s.planner && t.reasoning == s.reasoning
      && t.dataQuery == s.dataQuery && t.finalResponder == s.finalResponder
      && t.context == s.context.(userInput := input)
      && Respond(crew, s, input, env).1 == ProcessError(crew.errorHandler, input, GuardrailPrefix + reason, env.llm)
  {
  }

  /** The state in which a request that passed the guardrail asks the planner. */
  function AskPlanner(s: State, input: string): State
  {
    s.(context := s.context.(userInput := input), events := s.events + [SafetyCheck, PlanningEvent])
  }

  /** A request that passes the guardrail goes on to planning. */
  lemma Screened(crew: Crew, s: State, input: string, env: Env)
    requires ValidateInput(input, env.llm(ClassifierRequest(input))).passed
    ensures Attempt(crew, s, input, env) == Plan(crew, AskPlanner(s, input), input, env)
  {
    assert s.events + [SafetyCheck] + [PlanningEvent] == s.events + [SafetyCheck, PlanningEvent];
  }

  /** The planner answers and its reply holds a plan with tasks. */
  predicate PlanAccepted(crew: Crew, s: State, input: string, env: Env)
  {
    var c := Call(crew.planner, s.planner, input, env.llm);
    c.reply.Success? && RecoverPlan(c.reply.value, env.parsePlan).Success?
    && RecoverPlan(c.reply.value, env.parsePlan).value.Some?
  }

  /** The state in which the task loop of an accepted plan starts: the plan stored and announced. */
  function Announced(crew: Crew, s: State, input: string, env: Env): (r: State)
    requires PlanAccepted(crew, s, input, env)
    ensures HasPlan(r)
  {
    var c := Call(crew.planner, s.planner, input, env.llm);
    var plan := RecoverPlan(c.reply.value, env.parsePlan).value.value;
    s.(context := s.context.(plan := Some(plan)),
       events := s.events + [Event("planner", "Plan Generated", PlanSummary(plan))],
       planner := c.history)
  }

  /** An accepted plan is stored, announced and run. */
  lemma ReachesTasks(crew: Crew, s: State, input: string, env: Env)
    requires PlanAccepted(crew, s, input, env)
    ensures Plan(crew, s, input, env) == Execute(crew, Announced(crew, s, input, env), env)
  {
  }

  /**
   * Planning that yields no plan with tasks throws before any task runs:
   * `globalOutput` is untouched and events were only appended.
   */
  lemma StopsBeforeTasks(crew: Crew, s: State, input: string, env: Env)
    requires !PlanAccepted(crew, s, input, env)
    ensures Plan(crew, s, input, env).Thrown?
    ensures Plan(crew, s, input, env).state.context.globalOutput == s.context.globalOutput
    ensures Plan(crew, s, input, env).state.events == s.events
  {
  }

  /** A planner call that throws is reported as "Planning failed: " and its message (lines 42-46). */
  lemma PlannerFailureMessage(crew: Crew, s: State, input: string, env: Env)
    requires Call(crew.planner, s.planner, input, env.llm).reply.Failure?
    ensures Plan(crew, s, input, env).Thrown?
    ensures Plan(crew, s, input, env).message == PlanningPrefix + Call(crew.planner, s.planner, input, env.llm).reply.error
  {
  }

  /**
   * A planner reply that is not JSON and holds no brace span throws
   * "Failed to parse plan JSON"; one whose brace span is not JSON either
   * throws the span's own syntax error (lines 49-58).
   */
  lemma PlanParseFailureMessage(crew: Crew, s: State, input: string, env: Env)
    requires Call(crew.planner, s.planner, input, env.llm).reply.Success?
    requires env.parsePlan(Call(crew.planner, s.planner, input, env.llm).reply.value).SyntaxError?
    ensures var reply := Call(crew.planner, s.planner, input, env.llm).reply.value;
      BraceSpan(reply).None? ==> Plan(crew, s, input, env).Thrown? && Plan(crew, s, input, env).message == PlanJsonFailure
    ensures var reply := Call(crew.planner, s.planner, input, env.llm).reply.value;
      BraceSpan(reply).Some? && env.parsePlan(BraceSpan(reply).value).SyntaxError? ==>
        Plan(crew, s, input, env).Thrown?
        && Plan(crew, s, input, env).message == env.parsePlan(BraceSpan(reply).value).message
  {
  }

  /** A parsed value that is not a plan with tasks throws "Invalid plan structure received from planner" (lines 60-62). */
  lemma InvalidPlanMessage(crew: Crew, s: State, input: string, env: Env)
    requires Call(crew.planner, s.planner, input, env.llm).reply.Success?
    requires RecoverPlan(Call(crew.planner, s.planner, input, env.llm).reply.value, env.parsePlan) == Success(None)
    ensures Plan(crew, s, input, env).Thrown?
    ensures Plan(crew, s, input, env).message == InvalidPlan
    ensures Plan(crew, s, input, env).state.context.plan.None?
  {
  }

  /**
   * Synthesis answers exactly when the final responder does, with its text;
   * otherwise it throws "Final response generation failed: " and the
   * responder's message (lines 126-132).
   */
  lemma SynthesisOutcome(crew: Crew, s: State, env: Env)
    requires HasPlan(s)
    ensures var c := Call(crew.finalResponder, s.finalResponder,
                          SynthesisPrompt(s.context.plan.value.objective, s.context.globalOutput), env.llm);
      (Synthesize(crew, s, env).Answered? <==> c.reply.Success?)
      && (c.reply.Success? ==> Synthesize(crew, s, env).answer == c.reply.value)
      && (c.reply.Failure? ==> Synthesize(crew, s, env).message == FinalPrefix + c.reply.error)
  {
  }

  /**
   * A loop that runs to the end and a synthesis that answers: the events
   * are those of the steps then "Synthesizing", and the final responder
   * gained one exchange.
   */
  lemma ExecutionAnswers(crew: Crew, s: State, env: Env)
    requires HasPlan(s) && Execute(crew, s, env).Answered?
    ensures var t := Execute(crew, s, env).state;
      HasPlan(t) && |Tasks(t)| == |Tasks(s)|
      && Titles(t.events) == Titles(s.events) + StepTitles(0, |Tasks(s)|) + ["Synthesizing"]
      && t.context.globalOutput == s.context.globalOutput + Records(Tasks(t), 0, |Tasks(t)|)
      && (forall j :: 0 <= j < |Tasks(t)| ==> Tasks(t)[j].status == Completed)
      && t.planner == s.planner && |t.finalResponder| == |s.finalResponder| + 2
      && t.context.userInput == s.context.userInput
  {
    hide RunTask;
    hide RunTasks;
    TasksSucceed(crew, s, 0, env);
    TasksSucceedEvents(crew, s, 0, env);
    TasksSucceedOutput(crew, s, 0, env);
    var t := RunTasks(crew, s, 0, env).state;
    TitlesPush(t.events, Synthesizing);
  }

  /** Planning that ends in an answer accepted a plan. */
  lemma AnsweredPlanWasAccepted(crew: Crew, s: State, input: string, env: Env)
    requires Plan(crew, s, input, env).Answered?
    ensures PlanAccepted(crew, s, input, env)
  {
    if !PlanAccepted(crew, s, input, env) {
      StopsBeforeTasks(crew, s, input, env);
    }
  }

  /**
   * Planning that ends in an answer: the plan was announced, every task
   * completed in order, and synthesis followed.
   */
  lemma PlanAnswers(crew: Crew, s: State, input: string, env: Env)
    requires Plan(crew, s, input, env).Answered?
    ensures var t := Plan(crew, s, input, env).state;
      HasPlan(t)
      && Titles(t.events) == Titles(s.events) + ["Plan Generated"] + StepTitles(0, |Tasks(t)|) + ["Synthesizing"]
      && t.context.globalOutput == s.context.globalOutput + Records(Tasks(t), 0, |Tasks(t)|)
      && (forall j :: 0 <= j < |Tasks(t)| ==> Tasks(t)[j].status == Completed)
      && |t.planner| == |s.planner| + 2 && |t.finalResponder| == |s.finalResponder| + 2
      && t.context.userInput == s.context.userInput
  {
    hide Plan;
    hide Execute;
    hide RunTasks;
    hide RunTask;
    AnsweredPlanWasAccepted(crew, s, input, env);
    ReachesTasks(crew, s, input, env);
    var s4 := Announced(crew, s, input, env);
    ExecutionAnswers(crew, s4, env);
    var announce := s4.events[|s.events|];
    assert s4.events == s.events + [announce];
    TitlesPush(s.events, announce);
  }

  /** A request that ends in an answer passed the guardrail. */
  lemma AnsweredWasScreened(crew: Crew, s: State, input: string, env: Env)
    requires Attempt(crew, s, input, env).Answered?
    ensures ValidateInput(input, env.llm(ClassifierRequest(input))).passed
  {
  }

  /**
   * A request that reaches the final answer emitted 2n + 4 events for its
   * n tasks, in order: "Safety Check", "Planning", "Plan Generated", the
   * two events of each step, "Synthesizing". Every task completed,
   * `globalOutput` gained one entry per task after the old ones, and the
   * planner and final responder each gained one exchange.
   */
  lemma SuccessfulRun(crew: Crew, s: State, input: string, env: Env)
    requires Attempt(crew, s, input, env).Answered?
    ensures var t := Attempt(crew, s, input, env).state;
      HasPlan(t)
      && Titles(t.events) == Titles(s.events) + ["Safety Check", "Planning"] + ["Plan Generated"]
                             + StepTitles(0, |Tasks(t)|) + ["Synthesizing"]
      && t.context.globalOutput == s.context.globalOutput + Records(Tasks(t), 0, |Tasks(t)|)
      && (forall j :: 0 <= j < |Tasks(t)| ==> Tasks(t)[j].status == Completed)
      && |t.planner| == |s.planner| + 2 && |t.finalResponder| == |s.finalResponder| + 2
      && t.context.userInput == input
  {
    hide Attempt;
    hide Plan;
    hide ValidateInput;
    hide RecoverPlan;
    hide Utf16Length;
    AnsweredWasScreened(crew, s, input, env);
    Screened(crew, s, input, env);
    PlanAnswers(crew, AskPlanner(s, input), input, env);
    assert AskPlanner(s, input).events == s.events + [SafetyCheck] + [PlanningEvent];
    TitlesPush(s.events, SafetyCheck);
    TitlesPush(s.events + [SafetyCheck], PlanningEvent);
  }

  /** A request that reaches the final answer emitted 2n + 4 events for its n tasks. */
  lemma SuccessfulRunLength(crew: Crew, s: State, input: string, env: Env)
    requires Attempt(crew, s, input, env).Answered?
    ensures var t := Attempt(crew, s, input, env).state;
      HasPlan(t) && |t.events| == |s.events| + 2 * |Tasks(t)| + 4
  {
    SuccessfulRun(crew, s, input, env);
  }

  /**
   * `globalOutput` is never reset: whatever a request does, the entries of
   * earlier requests stay in front.
   */
  lemma GlobalOutputNeverReset(crew: Crew, s: State, input: string, env: Env)
    ensures s.context.globalOutput <= Respond(crew, s, input, env).0.context.globalOutput
  {
    hide Plan;
    hide Execute;
    hide RunTasks;
    hide RunTask;
    if ValidateInput(input, env.llm(ClassifierRequest(input))).passed {
      Screened(crew, s, input, env);
      var s2 := AskPlanner(s, input);
      if PlanAccepted(crew, s2, input, env) {
        ReachesTasks(crew, s2, input, env);
        LoopKeepsOutput(crew, Announced(crew, s2, input, env), env);
      } else {
        StopsBeforeTasks(crew, s2, input, env);
      }
    }
  }

  /** The task loop and synthesis keep the entries already in `globalOutput` in front. */
  lemma LoopKeepsOutput(crew: Crew, s: State, env: Env)
    requires HasPlan(s)
    ensures s.context.globalOutput <= Execute(crew, s, env).state.context.globalOutput
  {
    hide RunTask;
    if RunTasks(crew, s, 0, env).Next? {
      TasksSucceedOutput(crew, s, 0, env);
    } else {
      TasksHaltOutput(crew, s, 0, env);
    }
  }

  /** An empty task list is accepted: the request goes straight from the plan to synthesis. */
  lemma EmptyPlanGoesToSynthesis(crew: Crew, s: State, env: Env)
    requires HasPlan(s) && Tasks(s) == []
    ensures Execute(crew, s, env) == Synthesize(crew, s, env)
  {
  }

  /**
   * A plan wrapped in prose that has no `{` before it and no `}` after it
   * is cut out exactly by the brace span.
   */
  lemma WrappedPlanIsRecovered(pre: string, body: string, post: string)
    requires |body| >= 2 && body[0] == '{' && body[|body| - 1] == '}'
    requires forall k :: 0 <= k < |pre| ==> pre[k] != '{'
    requires forall k :: 0 <= k < |post| ==> post[k] != '}'
    ensures BraceSpan(pre + body + post) == Some(body)
  {
    var s := pre + body + post;
    var i := |pre|;
    var j := |pre| + |body| - 1;
    assert s[i] == '{' && s[j] == '}';
    assert forall k :: 0 <= k < i ==> s[k] == pre[k];
    assert forall k :: j < k < |s| ==> s[k] == post[k - j - 1];
    assert FirstIndexOf(s, '{') == Some(i);
    assert LastIndexOf(s, '}') == Some(j);
    assert s[i..j + 1] == body;
  }
}
