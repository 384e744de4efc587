/**
 * The orchestrator: a two-step workflow over a shared state record.
 * `decide_agent` turns the classifier's reply into an agent label, and
 * `execute_agent` hands the untouched prompt to that agent's handler.
 *
 * Both the classifier and the handlers are parameters: `classify` maps the
 * user prompt to the raw reply text, and `handler(agent, prompt)` is what the
 * agent registered under that label returns.
 */
module Orchestrator {
  import opened Text

  /** The keys of AGENTS. */
  const Agents: set<string> := {"Agent1", "Agent2"}

  /** The label every unrecognised reply falls back to. */
  const Fallback: string := "Agent1"

  /** `decision if decision in AGENTS else "Agent1"`, for `decision` the stripped reply. */
  function Route(reply: string): (agent: string)
    ensures agent in Agents
    ensures Strip(reply) in Agents ==> agent == Strip(reply)
    ensures Strip(reply) !in Agents ==> agent == Fallback
  {
    var decision := Strip(reply);
    if decision in Agents then decision else Fallback
  }

  /** Agent2 is chosen only when the stripped reply is exactly "Agent2"; the
      fallback never produces it. */
  lemma RouteToAgent2(reply: string)
    ensures Route(reply) == "Agent2" <==> Strip(reply) == "Agent2"
  {
  }

  /** The membership test is case-sensitive: a reply "agent2" goes to Agent1. */
  lemma RouteIsCaseSensitive()
    ensures Route("agent2") == "Agent1"
  {
    StripStripped("agent2");
    assert "agent2" != "Agent2" by {
      assert "agent2"[0] != "Agent2"[0];
    }
  }

  /** Surrounding whitespace in the reply does not change the route. */
  lemma RouteIgnoresPadding(reply: string)
    ensures Route(Strip(reply)) == Route(reply)
  {
    StripIdempotent(reply);
  }

  /** OrchestratorState, updated in place by the two workflow nodes. */
  class State {
    var prompt: string
    var decision: string
    var result: string

    /** `run_task`'s initial state: the request prompt, no decision, no result. */
    constructor(prompt: string)
      ensures this.prompt == prompt && decision == "" && result == ""
    {
      this.prompt := prompt;
      decision := "";
      result := "";
    }

    /** `decide_agent`: only `decision` changes, and it becomes a key of AGENTS. */
    method DecideAgent(classify: string -> string)
      modifies this
      ensures decision == Route(classify(old(prompt)))
      ensures decision in Agents
      ensures prompt == old(prompt) && result == old(result)
    {
      decision := Route(classify(prompt));
    }

    /** `execute_agent`: the handler of `AGENTS[decision]` gets the prompt
        unmodified, and its return value is stored in `result`. */
    method ExecuteAgent(handler: (string, string) -> string)
      requires decision in Agents
      modifies this
      ensures result == handler(old(decision), old(prompt))
      ensures prompt == old(prompt) && decision == old(decision)
    {
      result := handler(decision, prompt);
    }
  }

  /** The `/run` response body. */
  datatype Response = Response(agent: string, result: string)

  /** `run_task`: a fresh state, then `decide_agent`, then `execute_agent`;
      the response reports the final decision and result. */
  method RunTask(prompt: string, classify: string -> string, handler: (string, string) -> string)
    returns (response: Response)
    ensures response.agent in Agents
    ensures response.agent == Route(classify(prompt))
    ensures response.result == handler(response.agent, prompt)
  {
    var state := new State(prompt);
    state.DecideAgent(classify);
    state.ExecuteAgent(handler);
    response := Response(state.decision, state.result);
  }
}
