/**
 * The data-query worker (src/agents/data-query.ts): it asks the service
 * for a query object, strips code fences from the reply, parses it, calls
 * the data tool and formats query and rows as one text. A reply that does
 * not parse and a tool failure both become result text; only a failure of
 * the service call itself propagates.
 */
module DataQuery {
  import opened Wrappers
  import opened Text
  import opened External
  import opened Agents

  const JsonFence := "```json"
  const Fence := "```"

  const QueryFailurePrefix := "Failed to generate valid query: "
  const FetchErrorPrefix := "Error fetching data: "

  /** Removing every fence keeps the first character of a string that does not start with a backtick. */
  lemma RemovalKeepsHead(s: string)
    requires s != [] && s[0] != '`'
    ensures ReplaceAll(s, Fence, "") != [] && ReplaceAll(s, Fence, "")[0] == s[0]
  {
    if |s| >= |Fence| {
      assert s[..|Fence|][0] == s[0];
    }
  }

  /** A string that does not start with two backticks keeps that property once the fences are removed. */
  lemma RemovalKeepsNoDoubleTick(s: string)
    requires !StartsWith(s, "``")
    ensures !StartsWith(ReplaceAll(s, Fence, ""), "``")
  {
    if |s| >= |Fence| {
      assert s[..|Fence|][..2] == s[..2];
      var t := ReplaceAll(s[1..], Fence, "");
      assert ReplaceAll(s, Fence, "") == [s[0]] + t;
      if s[0] == '`' {
        assert s[1] != '`';
        RemovalKeepsHead(s[1..]);
        assert ([s[0]] + t)[1] == t[0];
      }
    }
  }

  /**
   * `replace(/```/g, '')` leaves no fence behind: what remains of a run of
   * backticks is shorter than three, and runs stay apart.
   */
  lemma {:induction false} RemovalLeavesNoFence(s: string)
    ensures !Includes(ReplaceAll(s, Fence, ""), Fence)
    decreases |s|
  {
    var r := ReplaceAll(s, Fence, "");
    if |s| < |Fence| {
      assert forall i :: !OccursAt(r, Fence, i);
    } else if s[..|Fence|] == Fence {
      RemovalLeavesNoFence(s[|Fence|..]);
      assert r == ReplaceAll(s[|Fence|..], Fence, "");
    } else {
      var t := ReplaceAll(s[1..], Fence, "");
      RemovalLeavesNoFence(s[1..]);
      assert r == [s[0]] + t;
      assert r[1..] == t;
      forall i | 0 < i ensures !OccursAt(r, Fence, i) {
        OccursAtTail(r, Fence, i - 1);
      }
      if s[0] == '`' {
        assert s[..3] == [s[0]] + s[1..][..2];
        assert !StartsWith(s[1..], "``");
        RemovalKeepsNoDoubleTick(s[1..]);
        if |t| >= 2 {
          assert r[..3] == [s[0]] + t[..2];
        }
      }
      assert !OccursAt(r, Fence, 0);
    }
  }

  /** A piece cut out of a string without `sub` has none either. */
  lemma SliceKeepsAbsence(s: string, lo: nat, hi: nat, sub: string)
    requires lo <= hi <= |s| && !Includes(s, sub)
    ensures !Includes(s[lo..hi], sub)
  {
    var t := s[lo..hi];
    forall i | OccursAt(t, sub, i) ensures OccursAt(s, sub, lo + i) {
      var w := t[i..i + |sub|];
      assert forall k | 0 <= k < |sub| :: w[k] == s[lo + i + k];
      assert w == s[lo + i..lo + i + |sub|];
    }
  }

  /**
   * The clean-up of the reply: every "```json", then every "```", is
   * removed and the rest trimmed.
   */
  function CleanReply(raw: string): string
  {
    Trim(ReplaceAll(ReplaceAll(raw, JsonFence, ""), Fence, ""))
  }

  /** No fence survives the clean-up. */
  lemma CleanReplyLeavesNoFence(raw: string)
    ensures !Includes(CleanReply(raw), Fence)
  {
    var unfenced := ReplaceAll(ReplaceAll(raw, JsonFence, ""), Fence, "");
    RemovalLeavesNoFence(ReplaceAll(raw, JsonFence, ""));
    var left := TrimStart(unfenced);
    SliceKeepsAbsence(unfenced, |unfenced| - |left|, |unfenced|, Fence);
    assert unfenced[|unfenced| - |left|..|unfenced|] == left;
    SliceKeepsAbsence(left, 0, |TrimEnd(left)|, Fence);
  }

  /**
   * A reply wrapped in a ```json fence cleans to the same text as the bare
   * reply, whenever the reply itself holds no backtick.
   */
  lemma FencedReplyCleansLikeBare(body: string)
    requires forall k :: 0 <= k < |body| ==> body[k] != '`'
    ensures CleanReply(JsonFence + body + Fence) == CleanReply(body) == Trim(body)
  {
    var fenced := JsonFence + body + Fence;
    assert fenced[..|JsonFence|] == JsonFence;
    assert fenced[|JsonFence|..] == body + Fence;
    ReplaceAllSkipsPrefix(body, Fence, JsonFence, "");
    ReplaceAllShort(Fence, JsonFence, "");
    assert ReplaceAll(fenced, JsonFence, "") == body + Fence;
    ReplaceAllSkipsPrefix(body, Fence, Fence, "");
    assert Fence[..|Fence|] == Fence;
    assert ReplaceAll(Fence, Fence, "") == "" + ReplaceAll([], Fence, "");
    assert ReplaceAll(body + Fence, Fence, "") == body;
    ReplaceAllSkipsPrefix(body, [], JsonFence, "");
    ReplaceAllSkipsPrefix(body, [], Fence, "");
    assert body + [] == body;
  }

  /**
   * What the worker makes of the service's reply `raw`: a parse failure
   * quotes the raw, uncleaned reply and the tool is not called; a tool
   * failure reports the tool's message; otherwise the query and the rows
   * are printed under two headings.
   */
  function Interpret(raw: string, env: Env): (r: string)
    ensures env.parseQuery(CleanReply(raw)).None? ==> r == QueryFailurePrefix + raw
    ensures env.parseQuery(CleanReply(raw)).Some? && env.callApi(env.parseQuery(CleanReply(raw)).value).ToolError? ==>
              r == FetchErrorPrefix + env.callApi(env.parseQuery(CleanReply(raw)).value).message
    ensures env.parseQuery(CleanReply(raw)).Some? && env.callApi(env.parseQuery(CleanReply(raw)).value).Rows? ==>
              r == QueryReport(env.stringify(env.parseQuery(CleanReply(raw)).value),
                               env.stringify(env.callApi(env.parseQuery(CleanReply(raw)).value).data))
  {
    match env.parseQuery(CleanReply(raw))
    case None => QueryFailurePrefix + raw
    case Some(query) =>
      match env.callApi(query)
      case ToolError(m) => FetchErrorPrefix + m
      case Rows(data) => QueryReport(env.stringify(query), env.stringify(data))
  }

  function QueryReport(query: string, data: string): string
  {
    "QUERY GENERATED:\n" + query + "\n\nDATA RETRIEVED (Mock):\n" + data
  }

  /**
   * The tool is consulted at most once, on the parsed query: two tools that
   * agree there give the same result, and when parsing fails the tool does
   * not matter at all.
   */
  lemma ToolSeesOnlyParsedQuery(raw: string, env: Env, callApi: Json -> ToolOutcome)
    requires env.parseQuery(CleanReply(raw)).None?
             || env.callApi(env.parseQuery(CleanReply(raw)).value) == callApi(env.parseQuery(CleanReply(raw)).value)
    ensures Interpret(raw, env) == Interpret(raw, env.(callApi := callApi))
  {
  }

  /**
   * `process(input)` as a function of the agent's history: the inherited
   * call, then `Interpret` on its text. The result fails exactly when the
   * inherited call fails, with that call's message.
   */
  function QueryCall(cfg: AgentConfig, history: seq<Message>, input: string, env: Env): (c: CallResult)
    ensures c.history == Call(cfg, history, input, env.llm).history
    ensures c.reply.Failure? <==> Call(cfg, history, input, env.llm).reply.Failure?
    ensures c.reply.Failure? ==> c.reply == Call(cfg, history, input, env.llm).reply
    ensures c.reply.Success? ==> c.reply.value == Interpret(Call(cfg, history, input, env.llm).reply.value, env)
  {
    var c := Call(cfg, history, input, env.llm);
    match c.reply
    case Failure(_) => c
    case Success(raw) => CallResult(c.history, Success(Interpret(raw, env)))
  }

  /** `DataQueryAgentWrapper.process(input)`, on the agent whose history it extends. */
  method Process(agent: Agent, input: string, env: Env) returns (r: Result<string, string>)
    modifies agent
    ensures agent.history == QueryCall(agent.config, old(agent.history), input, env).history
    ensures r == QueryCall(agent.config, old(agent.history), input, env).reply
  {
    var raw := agent.Process(input, env.llm);
    match raw {
      case Failure(m) =>
        r := Failure(m);
      case Success(text) =>
        r := Success(Interpret(text, env));
    }
  }
}
