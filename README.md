# agent-poc: a Dafny model of the multi-agent request pipeline

agent-poc answers marketing-analytics questions with a crew of LLM agents.
An `Orchestrator` takes one user request through four stages:

1. Guardrails screen the input: a length limit, unsafe phrases, e-mail, phone and card
   patterns, and then an LLM relevance classifier.
2. A planner agent writes a JSON plan. Its tasks are assigned to a `reasoning` agent or a
   `data-query` agent.
3. The tasks run in order. Each task's result is added to the shared `globalOutput`, and a
   progress event is sent before and after each step.
4. A final-responder agent writes the answer. Any failure on the way goes to an error agent,
   which words the apology.

The frontend's `MessageContent` component splits an answer into text and `${{KEY:…}}` /
`${{PAGE:…}}` tokens, turns the tokens into buttons, and looks up the details of a key in a
data pool.

The model has one module per source file:

- `Types`: the task, plan and context records, and the agent-name dispatch.
- `Agents`: the `Agent` class. Its `history` field is updated in place by `Process` and
  `ClearHistory`. Alongside it are the pure functions `Call` and `ProcessError`, which specify
  one conversation turn and the error agent's reply.
- `Guardrails`: `validateInput` and `validateOutput`. The three regular expressions are written
  out as predicates on the string.
- `DataQuery`: the data-query wrapper. It cleans the reply, parses it, calls the tool and
  reports.
- `Orchestration`: the pipeline as pure functions over a `State`, and the `Orchestrator` class.
  The class's methods are proved to move the object's state exactly as those functions say.
- `PipelineProperties`: lemmas about whole runs. They cover which events are emitted, what is
  recorded in `globalOutput`, which tasks end up completed, and where a run stops.
- `MessageContent`: `toTitleCase`, the token split, key and page extraction, bullet clean-up,
  the choice of what each part renders as, and the details lookup.
- `Text`, `Wrappers` and `External`: supporting modules. They hold the JavaScript string
  built-ins used (`includes`, global `replace`, `join`, `trim`, ASCII case mapping, `length`
  in UTF-16 code units), the
  `Option`/`Result` types, and the oracle types.

The outside world is passed in as parameters of type `External.Env`:

- the Anthropic client is `llm: Request -> CallOutcome`, where a call returns text, returns
  non-text content, or throws with a message;
- `JSON.parse` of a plan is `parsePlan`, and of a query is `parseQuery`;
- the mock data tool is `callApi`;
- `JSON.stringify` is `stringify`.

Behaviours of the code worth noting, which the model keeps:

- A plan with an empty `tasks` array is accepted and goes straight to synthesis.
- `globalOutput` is never cleared between requests, so later requests see earlier results.
- When the relevance classifier throws, the input is rejected (the check fails closed).
- A non-text classifier reply lets the input through.

## Model

| member | source | states |
|---|---|---|
| Types.KindOf | src/orchestrator.ts:90-96 | an assigned-agent name selects the reasoning or data-query agent exactly when it is that agent's name; any other name selects none |
| Agents.Agent.constructor | src/agent.ts:16-21 | a new agent keeps its configuration and starts with an empty history |
| Agents.Call | src/agent.ts:23-53 | a turn appends the user message and, only when the model returns text, the assistant reply. The request carries the whole history. A non-text reply fails with "Unexpected response type from Claude", and a thrown call fails with the client's message |
| Agents.DanglingTurnIsResent | src/agent.ts:27-52 | after a failed turn the user message stays in the history, so the next turn sends two user messages in a row |
| Agents.Agent.Process | src/agent.ts:23-53 | the agent's history and its result are exactly those of one `Call` on the old history |
| Agents.ProcessError | src/agent.ts:56-76 | the error agent returns the model's text, the canned apology for non-text content, or the safety apology naming the reason when the call throws; an empty reply happens only when the model's text is empty |
| Agents.Agent.GetHistory | src/agent.ts:78-80 | returns the agent's current history |
| Agents.Agent.ClearHistory | src/agent.ts:82-84 | the history becomes empty, so the next turn sends only the new user message |
| Guardrails.HasKeyword | src/agents/guardrails.ts:28-32 | true exactly when the lower-cased input contains one of the keywords |
| Text.Utf16Length | src/agents/guardrails.ts:17 | `input.length` counts UTF-16 code units: between the number of characters and twice it, equal to it exactly when no character is astral and to twice it exactly when every character is |
| Text.Utf16LengthAppend | src/agents/guardrails.ts:17 | the code-unit length of a concatenation is the sum of the lengths |
| Guardrails.LocalVerdict | src/agents/guardrails.ts:14-47 | the first local rule that fires decides the rejection, in source order: too long (more than 5000 UTF-16 code units), unsafe phrase, e-mail, phone, card; each reason holds exactly when its rule fires and no earlier one did |
| Guardrails.ValidateInput | src/agents/guardrails.ts:13-80 | the input passes exactly when no local rule fires and the classifier returns non-text or text without "NO" after trim and upper-case. A local rejection wins over the classifier, a thrown classifier call is rejected with the system-error reason, and a "NO" answer is rejected as irrelevant |
| Guardrails.ValidateOutput | src/agents/guardrails.ts:82-87 | an output passes exactly when it is non-empty; otherwise the reason is "Empty output received." |
| Guardrails.LocalRejectionIgnoresClassifier | src/agents/guardrails.ts:16-47 | when a local rule rejects, the classifier's answer makes no difference and the input fails |
| Guardrails.UnsafePhraseRejected | src/agents/guardrails.ts:14-32 | any input of at most 5000 UTF-16 code units that holds an unsafe phrase, in any ASCII case, is rejected as a potential prompt injection |
| Guardrails.AstralPaddingIsTooLong | src/agents/guardrails.ts:17-19 | 2500 characters outside the Basic Multilingual Plane already make 5000 code units, so anything appended, even an unsafe phrase, is rejected as too long |
| Guardrails.DigitRunEnds | src/agents/guardrails.ts:36-37 | in a run of digits, the grouped digit pattern can only end right after the exact number of digits its groups need, and it does end there when that many remain |
| Guardrails.ContainsEmail | src/agents/guardrails.ts:35 | the e-mail pattern occurs somewhere in the input: local characters, "@", a domain, a dot and at least two letters (no contract of its own; used by `LocalVerdict`; `EmailInTextDetected` shows it matches) |
| Guardrails.ContainsPhone | src/agents/guardrails.ts:36 | the phone pattern occurs between word boundaries: 3, 3 and 4 digits, optional "-" or "." between groups (no contract of its own; `PhoneInTextDetected` and `SixteenDigitsHoldNoPhone` are about it) |
| Guardrails.ContainsCard | src/agents/guardrails.ts:37 | the card pattern occurs between word boundaries: four groups of 4 digits, optional " " or "-" between groups (no contract of its own; `SixteenDigitsAreCard` is about it) |
| Guardrails.NoBoundaryInsideDigits | src/agents/guardrails.ts:36-37 | there is no word boundary between two digits |
| Guardrails.DigitsHoldNoKeyword | src/agents/guardrails.ts:28-32 | a digit string holds none of the unsafe phrases |
| Guardrails.EmailInTextDetected | src/agents/guardrails.ts:35 | the address "a@b.co" matches the e-mail pattern, whatever text surrounds it |
| Guardrails.PhoneInTextDetected | src/agents/guardrails.ts:36 | a number shaped ddd-ddd-dddd, with "-" or "." between the groups, matches the phone pattern wherever it stands, when no word character touches it |
| Guardrails.SixteenDigitsHoldNoPhone | src/agents/guardrails.ts:36 | sixteen bare digits do not match the phone pattern, because a phone match needs word boundaries around exactly ten digits |
| Guardrails.SixteenDigitsAreCard | src/agents/guardrails.ts:37 | sixteen bare digits match the card pattern |
| Guardrails.SixteenDigitsAreFinancial | src/agents/guardrails.ts:35-47 | a sixteen-digit input is rejected as financial information, whatever the classifier says |
| DataQuery.RemovalLeavesNoFence | src/agents/data-query.ts:12 | removing every "```" from left to right leaves no "```" in the result |
| DataQuery.CleanReply | src/agents/data-query.ts:12 | removes every "```json", then every "```", then trims; its properties are `CleanReplyLeavesNoFence` and `FencedReplyCleansLikeBare` |
| DataQuery.CleanReplyLeavesNoFence | src/agents/data-query.ts:12 | the cleaned reply contains no code fence |
| DataQuery.FencedReplyCleansLikeBare | src/agents/data-query.ts:12 | a reply wrapped in a json code fence, whose body holds no backtick, cleans to the same text as the bare body, which is the body trimmed |
| DataQuery.Interpret | src/agents/data-query.ts:9-30 | an unparsable cleaned reply yields "Failed to generate valid query: " and the raw reply; a tool error yields "Error fetching data: " and its message; otherwise the report holds the stringified query and data |
| DataQuery.ToolSeesOnlyParsedQuery | src/agents/data-query.ts:13-20 | the result depends on the tool only through its answer for the parsed query, and not at all when parsing fails |
| DataQuery.QueryCall | src/agents/data-query.ts:5-31 | the wrapper leaves the inherited turn's history alone, passes on its failure unchanged, and interprets its text |
| DataQuery.Process | src/agents/data-query.ts:5-31 | the agent's history and result are those of `QueryCall` on the old history |
| Orchestration.StepFailure | src/orchestrator.ts:97-99 | a step failure message starts with "Step n (agent) failed: " |
| Orchestration.TaskPromptContents | src/orchestrator.ts:145-156 | the task prompt carries the task description, the quoted user input and all previous step outputs joined by blank lines |
| Orchestration.SynthesisPromptContents | src/orchestrator.ts:118-125 | the synthesis prompt carries the objective and all step outputs joined by blank lines |
| Orchestration.PlanSummary | src/orchestrator.ts:65-69 | the "Plan Generated" content: the objective, then one "- description" line per task (no contract of its own) |
| Orchestration.TaskPrompt | src/orchestrator.ts:145-156 | the input of one task; `TaskPromptContents` states what it carries |
| Orchestration.SynthesisPrompt | src/orchestrator.ts:118-125 | the final responder's input; `SynthesisPromptContents` states what it carries |
| Orchestration.BraceSpan | src/orchestrator.ts:52 | the greedy brace match exists exactly when some "{" comes before some "}", and it runs from the first "{" to the last "}" |
| Orchestration.RecoverPlan | src/orchestrator.ts:49-58 | a reply that parses gives its value. Otherwise the brace span is parsed: a span that parses gives that value, and a span that does not gives the span's own syntax error. Without a span the error is "Failed to parse plan JSON" |
| Orchestration.ErrorReason | src/orchestrator.ts:139 | an empty error message is replaced by a non-empty fallback, and any other message is kept |
| Orchestration.RunTask | src/orchestrator.ts:75-111 | one loop iteration; a completed step keeps the number of tasks. `StepCompletes`, `StepFails` and `StepRunsWorker` state its effect |
| Orchestration.RunTasks | src/orchestrator.ts:74-112 | the loop from a step on, in order, stopping at the first failure; it keeps the number of tasks. `TasksSucceed` and `TasksHalt` state its effect |
| Orchestration.Synthesize | src/orchestrator.ts:114-132 | the final stage; `SynthesisOutcome` states its answer and its error |
| Orchestration.Execute | src/orchestrator.ts:73-132 | the loop and then synthesis; `ExecutionAnswers` states an answered execution |
| Orchestration.Plan | src/orchestrator.ts:37-132 | planning, recovery, the plan check and execution; `PlanAnswers`, `StopsBeforeTasks` and the planning message lemmas state its outcomes |
| Orchestration.Attempt | src/orchestrator.ts:25-132 | the `try` block of a request; `SuccessfulRun` and `GuardrailRejection` state its outcomes |
| Orchestration.Respond | src/orchestrator.ts:134-142 | a successful run returns its answer, and any thrown error is answered by the error agent for the input and the thrown message, or "Unknown System Error" when that message is empty |
| Orchestration.Orchestrator.constructor | src/orchestrator.ts:13-21 | a new orchestrator has an empty context (no input, no plan, step 0, no outputs) and no events. It drives the shared agent instances it is given, whose histories it leaves as they are |
| Orchestration.Orchestrator.Emit | src/orchestrator.ts:29 | emitting appends exactly one event and leaves the context unchanged |
| Orchestration.Orchestrator.ExecuteStep | src/orchestrator.ts:75-111 | one loop iteration moves the orchestrator and its agents exactly as `RunTask` says |
| Orchestration.Orchestrator.ExecuteTasks | src/orchestrator.ts:74-112 | the loop moves the state exactly as `RunTasks` from step 0 says, and stops at the first failing step |
| Orchestration.Orchestrator.SynthesizeAnswer | src/orchestrator.ts:114-132 | the final stage moves the state and answers exactly as `Synthesize` says |
| Orchestration.Orchestrator.ExecutePlan | src/orchestrator.ts:74-132 | running the tasks and synthesising agrees with `Execute` |
| Orchestration.Orchestrator.PlanAndExecute | src/orchestrator.ts:37-132 | planning, plan recovery, the plan check and execution agree with `Plan` |
| Orchestration.Orchestrator.Run | src/orchestrator.ts:25-132 | the guarded body of the request agrees with `Attempt` |
| Orchestration.Orchestrator.HandleRequest | src/orchestrator.ts:23-143 | the new state and the returned text are exactly those of `Respond` on the old state |
| PipelineProperties.WorkerReply | src/orchestrator.ts:86-99 | the reply of the worker a task is dispatched to, asked from the state before the step (a reference definition for the step lemmas) |
| PipelineProperties.StepRunsWorker | src/orchestrator.ts:86-111 | a step completes exactly when its worker answers; the answer becomes the task's result, and a failure becomes "Step n (agent) failed: " and the worker's message |
| PipelineProperties.StepCompletes | src/orchestrator.ts:74-111 | a successful step dispatches to a known agent, marks its task completed with the worker's reply as its result, changes no other task, and sets the step index |
| PipelineProperties.StepCompletesEvents | src/orchestrator.ts:80-106 | a successful step emits "Executing Step n" and then "Step n Complete" |
| PipelineProperties.StepCompletesOutput | src/orchestrator.ts:109 | a successful step appends "Step n Result (agent):" and its result to `globalOutput` |
| PipelineProperties.StepFails | src/orchestrator.ts:90-99 | a failing step changes no task and no output, and its message is "Step n (agent) failed: " followed by the worker's message |
| PipelineProperties.StepFailsEvents | src/orchestrator.ts:80-99 | a failing step emits only its "Executing Step n" event |
| PipelineProperties.TasksSucceed | src/orchestrator.ts:74-112 | when the loop finishes, every task from the start index on is completed with a result, and the earlier tasks are untouched |
| PipelineProperties.TasksStoreReplies | src/orchestrator.ts:74-112 | when the loop finishes, each task's result is the reply its worker gave in the state the loop had reached when that task's step began |
| PipelineProperties.TasksSucceedEvents | src/orchestrator.ts:74-112 | a finished loop emits an executing/complete pair for every step, in order |
| PipelineProperties.TasksSucceedOutput | src/orchestrator.ts:109 | a finished loop appends one record per task, in task order |
| PipelineProperties.TasksHalt | src/orchestrator.ts:74-112 | a halted loop stops at some step k: tasks before the start and from k on are untouched, every step from the start up to k completed its task with a result, and the message names step k |
| PipelineProperties.TasksHaltStoreReplies | src/orchestrator.ts:74-112 | a loop that halts at step k stores, for every earlier step j, the reply its worker gave in the state reached when step j began; step k's worker failed in the state reached before it, and the message is exactly `StepFailure` of that error |
| PipelineProperties.TasksHaltEvents | src/orchestrator.ts:74-112 | a halted loop emits the pairs of the steps before k and then only "Executing Step k" |
| PipelineProperties.TasksHaltOutput | src/orchestrator.ts:74-112 | a halted loop records exactly the steps before k |
| PipelineProperties.UnknownAgentStops | src/orchestrator.ts:94-96 | a task assigned to an unknown agent stops the loop at or before that task |
| PipelineProperties.GuardrailRejection | src/orchestrator.ts:29-35 | a rejected input emits only "Safety Check", calls no agent, and is answered by the error agent with "Guardrail Violation: " and the reason |
| PipelineProperties.Screened | src/orchestrator.ts:29-39 | a screened input goes on to planning with the "Planning" event |
| PipelineProperties.ReachesTasks | src/orchestrator.ts:60-74 | an accepted plan is announced with "Plan Generated" and then executed |
| PipelineProperties.StopsBeforeTasks | src/orchestrator.ts:41-62 | when planning, parsing or the plan check fails, the run throws before any task event or output |
| PipelineProperties.PlannerFailureMessage | src/orchestrator.ts:42-46 | a planner call that throws is reported as "Planning failed: " and its message |
| PipelineProperties.PlanParseFailureMessage | src/orchestrator.ts:49-58 | a reply that is not JSON and has no brace span throws "Failed to parse plan JSON"; one whose brace span is not JSON throws the span's syntax error |
| PipelineProperties.InvalidPlanMessage | src/orchestrator.ts:60-62 | a parsed value that is not a plan with tasks is stored as no plan and throws "Invalid plan structure received from planner" |
| PipelineProperties.SynthesisOutcome | src/orchestrator.ts:126-132 | synthesis answers exactly when the final responder does, with its text; otherwise it throws "Final response generation failed: " and the responder's message |
| PipelineProperties.ExecutionAnswers | src/orchestrator.ts:74-132 | an answered execution completed every task, emitted the step events and "Synthesizing", recorded every step, and made exactly one final-responder turn |
| PipelineProperties.AnsweredPlanWasAccepted | src/orchestrator.ts:41-62 | an answer implies that the plan was accepted |
| PipelineProperties.PlanAnswers | src/orchestrator.ts:37-132 | an answered plan stage emitted "Plan Generated", the step events and "Synthesizing", completed every task, and made one planner turn and one final-responder turn |
| PipelineProperties.AnsweredWasScreened | src/orchestrator.ts:29-35 | an answer implies that the input passed the guardrails |
| PipelineProperties.SuccessfulRun | src/orchestrator.ts:23-132 | a successful request emits Safety Check, Planning, Plan Generated, a pair per step and Synthesizing, in that order. It completes every task, records every step in order, and remembers the input |
| PipelineProperties.SuccessfulRunLength | src/orchestrator.ts:23-132 | a successful request emits exactly 2n + 4 events for n tasks |
| PipelineProperties.GlobalOutputNeverReset | src/orchestrator.ts:23-143 | a request only ever appends to `globalOutput`, whatever happens |
| PipelineProperties.LoopKeepsOutput | src/orchestrator.ts:74-132 | execution keeps every earlier output |
| PipelineProperties.EmptyPlanGoesToSynthesis | src/orchestrator.ts:60-74 | a plan with no tasks goes straight to synthesis |
| PipelineProperties.WrappedPlanIsRecovered | src/orchestrator.ts:52-54 | a brace-delimited plan with surrounding prose that contains no braces is recovered exactly |
| MessageContent.SplitJoin | frontend/src/MessageContent.tsx:14-16 | splitting on a separator and joining with it gives the string back |
| MessageContent.SplitPiecesAvoidSeparator | frontend/src/MessageContent.tsx:14 | no split piece contains the separator |
| MessageContent.LastPieceEmpty | frontend/src/MessageContent.tsx:14 | the last piece is empty exactly when the string is empty or ends with the separator |
| MessageContent.ToTitleCase | frontend/src/MessageContent.tsx:10-17 | underscores to spaces, lower case, split on spaces, capitalise, join; `TitleCasePointwise`, `TitleCaseWords` and `TitleCaseIdempotent` state its properties |
| MessageContent.CapitalizedWords | frontend/src/MessageContent.tsx:14-16 | capitalising each word upper-cases exactly the characters at the start of the text or after a space, and keeps the rest |
| MessageContent.TitleCasePointwise | frontend/src/MessageContent.tsx:10-17 | title case keeps the length; each character is the lower-cased character with "_" read as a space, upper-cased at the start of a word |
| MessageContent.TitleCaseHasNoUnderscore | frontend/src/MessageContent.tsx:12 | a title-cased string contains no underscore |
| MessageContent.TitleCaseKeepsSpaces | frontend/src/MessageContent.tsx:12-16 | spaces in the result stand exactly where the input had a space or an underscore |
| MessageContent.TitleCaseWords | frontend/src/MessageContent.tsx:10-17 | in a title-cased string no word begins with a lower-case letter, and no later character of a word is an upper-case letter |
| MessageContent.TitleCaseIdempotent | frontend/src/MessageContent.tsx:10-17 | title-casing twice is the same as title-casing once |
| MessageContent.MatchAtIsToken | frontend/src/MessageContent.tsx:21 | a token match at a position ends at e exactly when that stretch is an opening, a non-empty argument without "}", and "}}" |
| MessageContent.TokenAtNone | frontend/src/MessageContent.tsx:21 | no token starts at a position exactly when no stretch from it is a KEY or PAGE token |
| MessageContent.SplitTokens | frontend/src/MessageContent.tsx:21 | `split` with a capturing pattern: text and tokens alternate; `SplitTokensParts` states this |
| MessageContent.SplitTokensParts | frontend/src/MessageContent.tsx:21 | the parts join back to the content; there is an odd number of them; the odd-indexed ones are tokens; the even-indexed ones contain no token, and no token of the content starts inside one of them, so each token starts at the first position from the end of the previous one where a token starts, as `split` finds it |
| MessageContent.SplitFromLeftmost | frontend/src/MessageContent.tsx:21 | the scan never passes over a position where a token starts: no token of the content starts inside a text part |
| MessageContent.FirstArgNone | frontend/src/MessageContent.tsx:36 | no argument is captured exactly when the part contains no token with that opening |
| MessageContent.FirstArgSome | frontend/src/MessageContent.tsx:36 | a captured argument is the argument of the leftmost token with that opening in the part |
| MessageContent.ExtractKey | frontend/src/MessageContent.tsx:36 | the key captured by the KEY pattern, if any; `FirstArgNone`, `FirstArgSome` and `TokenArgExtracted` state what it finds |
| MessageContent.ExtractPage | frontend/src/MessageContent.tsx:43 | the page name captured by the PAGE pattern, or "" (`TokenArgExtracted`, `PageFallsBackToEmpty`) |
| MessageContent.TokenArgExtracted | frontend/src/MessageContent.tsx:36-43 | for a token part, the key or the page name extracted is the token's argument, and a page name is then non-empty |
| MessageContent.PageFallsBackToEmpty | frontend/src/MessageContent.tsx:43 | a part with no PAGE token yields the empty page name |
| MessageContent.CleanBulletsPointwise | frontend/src/MessageContent.tsx:51-53 | bullet clean-up keeps the length, turns each "•" into "-" and leaves every other character alone |
| MessageContent.CleanBullets | frontend/src/MessageContent.tsx:51-53 | the two replacements before rendering markdown; `CleanBulletsPointwise` states their effect |
| MessageContent.TokenPartsBecomeButtons | frontend/src/MessageContent.tsx:34-48 | each token part renders as a details button with its key or a page button with its title-cased name |
| MessageContent.Render | frontend/src/MessageContent.tsx:34-56 | the branch taken for a part, by its prefix, as written; `TokenPartsBecomeButtons` and `StrayKeyPrefixHidesText` are about it |
| MessageContent.StrayKeyPrefixHidesText | frontend/src/MessageContent.tsx:21-41 | text that starts with "${{KEY:}}" is not split off as a token, yet it renders as a keyless button, so the text is not shown |
| MessageContent.RenderAt | frontend/src/MessageContent.tsx:34-56 | the corrected branch: the part's position in the split decides; `RenderAtShowsAllText` is about it |
| MessageContent.RenderAtShowsAllText | frontend/src/MessageContent.tsx:34-56 | when the position decides, every text part is shown in full as markdown, only its bullets turned into "-", and every token part becomes a button |
| MessageContent.Field | frontend/src/MessageContent.tsx:24 | reading a property finds it exactly when some field has that name, and gives the last such field's value |
| MessageContent.FindByGroupKey | frontend/src/MessageContent.tsx:24 | the lookup finds the first item whose group_key equals the key, finds none exactly when every item misses, and throws when a null comes before any match |
| MessageContent.DetailsAlert | frontend/src/MessageContent.tsx:23-38 | a missing or empty key shows nothing; a found item shows "Details for key:" and the stringified item; a miss shows "No details found for key: " and the key; a throwing lookup shows nothing |

## Left out

- The Anthropic SDK, the network and the API key: every model call is the `llm` oracle, and the request records only the model, `max_tokens`, the system prompt and the messages.
- `JSON.parse` and `JSON.stringify` are oracles. A parsed plan is `None` when it is null or has no truthy `tasks`. A `tasks` value that is not an array, and task elements that make the loop raise a `TypeError`, are not modelled.
- A truthy plan value that is not an object is modelled as `None`, so it gets the invalid-plan error.
- The two-space indentation of `JSON.stringify(…, null, 2)` is inside the `stringify` oracle.
- Numbers in JSON are integers; floating-point values are not modelled.
- Logging (`console.log`/`warn`/`error`) has no effect in the model. The `progress` events are recorded as a sequence of (agent, title, content) with no listeners.
- Concurrency: each request runs to completion before the next, as the awaits of one request do. Interleaved requests on one orchestrator are not modelled.
- The agents are module-level singletons in the source, built when their modules load. The model passes these shared objects to the `Orchestrator` constructor, which requires the four agents whose histories a request extends to be distinct objects, as the singletons are.
- Agents.Agent.GetHistory: returns the history as a value. The source returns the live array, so a caller could mutate it; that aliasing is not modelled.
- Case mapping is ASCII only, in `toLowerCase`/`toUpperCase` and in the guardrail keyword check. Unicode case mapping is not modelled.
- The e-mail, phone and card regular expressions are modelled as predicates over ASCII letters and digits. Unicode digits are not word characters in either.
- The React rendering itself is not modelled: ReactMarkdown output, the button elements and the display of `alert`. `Render`, `RenderAt` and `DetailsAlert` give what is shown as a value.
- `src/tools/api-mock.ts` (the mock data tool) is the `callApi` oracle and is not part of this model.
- `src/server.ts` (the HTTP and SSE front) and `frontend/src/App.tsx` are not part of this model.
- The prompt-only agent definitions are not part of this model, except as configuration values: `src/agents/planner.ts`, `reasoning.ts`, `marketing.ts`, `final-responder.ts`, `error-handler.ts` and `src/task-planner.ts`.
- `process.env` lookups and `dotenv` are not modelled.

## Findings

| source | as written | input that shows it | evidently intended | confidence | as-written member | corrected member |
|---|---|---|---|---|---|---|
| frontend/src/MessageContent.tsx:35-41 | a part is taken for a details token by its prefix alone, so a text part that merely starts with "${{KEY:" becomes a keyless "View Details" button and its text is dropped | content "${{KEY:}} Sales rose" (an empty key is not a token, so the split leaves it whole as text) | only the token parts that the split separated become buttons, and every text part is shown | not executed | MessageContent.StrayKeyPrefixHidesText | MessageContent.RenderAtShowsAllText |
