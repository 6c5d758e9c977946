/** One supervised turn: the shared turn state, the specialist agents, the router that runs
    the planned agents one after the other, the synthesizer and the verifier. */
module Turn {
  import opened Options
  import opened Conversation
  import opened Supervisor
  import ToolLoop
  import Script

  datatype AgentOutput = AgentOutput(name: string, content: string)

  /** What one agent finds when it starts: whether every dependency it checks for is there, its
      prompts, its iteration setting, whether action tools exist, and the outside world. */
  datatype AgentEnv = AgentEnv(ready: bool, system: string, context: string, maxToolIterations: int,
                               hasActionTools: bool, oracle: Oracle)

  /** The contents of the turn state. */
  datatype View = View(outputs: seq<AgentOutput>, toolResults: seq<QueryResult>, usage: Usage,
                       finalResponse: string, plan: Option<Plan>, userLanguage: string, report: Option<VerifyReport>)

  datatype VerifyReport = VerifyReport(languageOk: bool, groundingOk: bool, issues: seq<string>)

  function MaxIters(setting: int): nat {
    if setting <= 0 then 5 else setting
  }

  function Seed(env: AgentEnv, history: seq<Message>, window: nat, userMessage: string): seq<Message> {
    [Plain(SYSTEM, env.system), Plain(SYSTEM, env.context)] + Tail(history, window) + [Plain(USER, userMessage)]
  }

  /** A request opens with the agent's two system prompts, the last messages of the conversation, at
      most `window` of them, and the user's message. */
  ghost predicate Asks(env: AgentEnv, history: seq<Message>, window: nat, userMessage: string, request: seq<Message>) {
    var n := if |history| < window then |history| else window;
    && |request| >= n + 3
    && request[0] == Message("system", env.system, [], "", "") && request[1] == Message("system", env.context, [], "", "")
    && request[2..2 + n] == history[|history| - n..]
    && request[2 + n] == Message("user", userMessage, [], "", "")
  }

  /** Every request asks this and goes on from the first one, which asks nothing else. */
  ghost predicate AllAsk(env: AgentEnv, history: seq<Message>, window: nat, userMessage: string, requests: seq<seq<Message>>) {
    && (forall k :: 0 <= k < |requests| ==> Asks(env, history, window, userMessage, requests[k]) && requests[0] <= requests[k])
    && (requests != [] ==> |requests[0]| == (if |history| < window then |history| else window) + 3)
  }

  lemma SeedAsks(env: AgentEnv, history: seq<Message>, window: nat, userMessage: string, more: seq<Message>)
    ensures Asks(env, history, window, userMessage, Seed(env, history, window, userMessage) + more)
    ensures |Seed(env, history, window, userMessage)| == (if |history| < window then |history| else window) + 3
  {
    var n := if |history| < window then |history| else window;
    assert Tail(history, window) == history[|history| - n..];
  }

  /** What a run of the loop asks, whatever the provider answers. */
  lemma RunAsks(env: AgentEnv, history: seq<Message>, window: nat, userMessage: string, requests: seq<seq<Message>>)
    requires ToolLoop.SentRequests(env.oracle, Seed(env, history, window, userMessage), requests)
    ensures AllAsk(env, history, window, userMessage, requests)
  {
    var seed := Seed(env, history, window, userMessage);
    hide Seed, Asks, ToolLoop.Transcript;
    SeedAsks(env, history, window, userMessage, []);
    if requests != [] {
      NothingBefore(env.oracle);
      assert requests[0] == seed + [] == seed;
    }
    forall k | 0 <= k < |requests|
      ensures Asks(env, history, window, userMessage, requests[k]) && requests[0] <= requests[k]
    {
      SeedAsks(env, history, window, userMessage, ToolLoop.Transcript(env.oracle, 0, k));
    }
  }

  lemma OneAsks(env: AgentEnv, history: seq<Message>, window: nat, userMessage: string)
    ensures AllAsk(env, history, window, userMessage, [Seed(env, history, window, userMessage)])
    ensures AllAsk(env, history, window, userMessage, [])
  {
    hide Seed, Asks;
    SeedAsks(env, history, window, userMessage, []);
    assert Seed(env, history, window, userMessage) + [] == Seed(env, history, window, userMessage);
  }

  lemma NothingBefore(o: Oracle)
    ensures ToolLoop.Transcript(o, 0, 0) == []
  {
  }

  /** The tool-call floor the supervisor's plan sets for the SQL agent. */
  function Floor(plan: Option<Plan>): int {
    if plan.Some? && plan.value.investigative then plan.value.minToolCalls else 0
  }

  const SQL_FALLBACK := "I wasn't able to complete my investigation. Please try rephrasing your question."
  const WEB_FALLBACK := "I wasn't able to find current information on that. Please try rephrasing or check back later."
  const ACTION_FALLBACK := "Action completed."
  const NO_ACTION_TOOLS := "I don't have any action tools configured for this chatbot."

  // ---------- What one agent run may do to the state ----------

  function Contribute(v: View, name: string, content: string): View {
    v.(outputs := v.outputs + [AgentOutput(name, content)], finalResponse := content)
  }

  /** The effect of a run of the tool loop on behalf of an agent. */
  ghost predicate LoopEffect(env: AgentEnv, name: string, fallback: string, floor: int, keepRows: bool, seed: seq<Message>,
                             before: View, after: View, ok: bool, requests: seq<seq<Message>>, turns: nat, out: ToolLoop.Outcome)
  {
    && ToolLoop.Finishes(env.oracle, MaxIters(env.maxToolIterations), floor, |requests|, turns, out)
    && ToolLoop.SentRequests(env.oracle, seed, requests)
    && ok == out.Answer?
    && var worked := before.(
           toolResults := before.toolResults + (if keepRows then ToolLoop.RowsOf(env.oracle, turns) else []),
           usage := AddUsage(before.usage, ToolLoop.UsageOf(env.oracle, |requests|)));
       after == if !ok then worked
                else Contribute(worked, name, if out.content == "" then fallback else out.content)
  }

  ghost predicate LoopRan(env: AgentEnv, name: string, fallback: string, floor: int, keepRows: bool, seed: seq<Message>,
                          before: View, after: View, ok: bool)
  {
    exists requests, turns, out :: LoopEffect(env, name, fallback, floor, keepRows, seed, before, after, ok, requests, turns, out)
  }

  /** The effect of a one-shot agent: its single reply, empty or not, is its output. */
  ghost predicate OneShotRan(env: AgentEnv, name: string, before: View, after: View, ok: bool) {
    var reply := env.oracle.reply(0);
    && (ok <==> env.ready && reply.Answered?)
    && after == if !ok then before
                else Contribute(before.(usage := AddUsage(before.usage, ReplyUsage(reply))), name, reply.message.content)
  }

  /** Exactly what running the agent of this name does. */
  ghost predicate AgentRan(name: string, env: AgentEnv, history: seq<Message>, userMessage: string, before: View, after: View, ok: bool) {
    if name !in {"sql", "web", "action"} then OneShotRan(env, name, before, after, ok)
    else if !env.ready then !ok && after == before
    else if name == "sql" then
      LoopRan(env, name, SQL_FALLBACK, Floor(before.plan), true, Seed(env, history, 4, userMessage), before, after, ok)
    else if name == "web" then
      LoopRan(env, name, WEB_FALLBACK, 0, false, Seed(env, history, 10, userMessage), before, after, ok)
    else if !env.hasActionTools then ok && after == Contribute(before, name, NO_ACTION_TOOLS)
    else LoopRan(env, name, ACTION_FALLBACK, 0, false, Seed(env, history, 4, userMessage), before, after, ok)
  }

  /** An agent either adds exactly one output, which becomes the final response, or none. */
  ghost predicate AgentEffect(name: string, before: View, after: View, ok: bool) {
    && after.plan == before.plan && after.userLanguage == before.userLanguage && after.report == before.report
    && before.toolResults <= after.toolResults
    && if !ok then after.outputs == before.outputs && after.finalResponse == before.finalResponse
       else
         && after.outputs == before.outputs + [AgentOutput(name, after.finalResponse)]
         && (name in {"sql", "web", "action"} ==> after.finalResponse != "")
  }

  /** One stop of the router: an agent that is not available fails without effect. */
  ghost predicate RouteStep(name: string, env: AgentEnv, available: bool, history: seq<Message>, userMessage: string,
                            before: View, after: View, ok: bool)
  {
    if available then AgentRan(name, env, history, userMessage, before, after, ok) else !ok && after == before
  }

  ghost predicate Routed(route: seq<string>, envs: string -> AgentEnv, agents: set<string>, history: seq<Message>, userMessage: string,
                         views: seq<View>, oks: seq<bool>)
  {
    && |oks| == |route| && |views| == |route| + 1
    && forall i :: 0 <= i < |route| ==>
         RouteStep(route[i], envs(route[i]), route[i] in agents, history, userMessage, views[i], views[i + 1], oks[i])
  }

  ghost predicate AllTrue(oks: seq<bool>) {
    forall i :: 0 <= i < |oks| ==> oks[i]
  }

  /** The synthesizer behind its gate: nothing to merge leaves the response alone, one output is the
      response, several are merged by one provider call. */
  ghost predicate Synthesized(env: AgentEnv, before: View, after: View, ok: bool) {
    var wanted := |before.outputs| >= 2 || (before.plan.Some? && before.plan.value.requiresSynthesis);
    var reply := env.oracle.reply(0);
    && (ok <==> !wanted || (env.ready && (|before.outputs| < 2 || reply.Answered?)))
    && after ==
       if !wanted || !ok || before.outputs == [] then before
       else if |before.outputs| == 1 then before.(finalResponse := before.outputs[0].content)
       else before.(finalResponse := reply.message.content, usage := AddUsage(before.usage, ReplyUsage(reply)))
  }

  /** What the verifier finds: whether there is a provider and what its two calls come back with, the
      dominant script of a text (there is exactly one verdict on each), and how the replies are read
      (None when they hold no valid JSON). */
  datatype VerifierEnv = VerifierEnv(hasProvider: bool, languageReply: Reply, groundingReply: Reply, script: string -> string, bytes: string -> nat,
                                     readLanguage: string -> Option<bool>, readGrounding: string -> Option<(bool, seq<string>)>)

  predicate Investigative(v: View) {
    v.plan.Some? && v.plan.value.investigative
  }

  /** The scripts of question and answer agree, or one of them is undecided. */
  predicate ScriptsAgree(env: VerifierEnv, v: View, userMessage: string) {
    Script.ScriptsMatch(env.script(userMessage), env.script(v.finalResponse))
  }

  /** The model is asked about the language: the scripts agree and cannot tell. */
  predicate AsksLanguage(env: VerifierEnv, v: View, userMessage: string, expected: string) {
    ScriptsAgree(env, v, userMessage) && env.hasProvider &&
    Script.NeedsLanguageCall(env.script(userMessage), env.script(v.finalResponse), env.bytes(v.finalResponse), expected)
  }

  lemma AddNothing()
    ensures forall u :: AddUsage(u, NO_USAGE) == u
  {
  }

  predicate LanguageDenied(env: VerifierEnv) {
    env.languageReply.Answered? && env.readLanguage(env.languageReply.message.content) == Some(false)
  }

  /** The grounding call failed, or found the answer not supported. */
  predicate GroundingDenied(env: VerifierEnv) {
    match env.groundingReply
    case Answered(message, _) =>
      var read := env.readGrounding(message.content);
      read.Some? && !read.value.0
    case _ => true
  }

  function GroundingIssues(env: VerifierEnv): seq<string> {
    match env.groundingReply
    case Answered(message, _) =>
      var read := env.readGrounding(message.content);
      if read.Some? then read.value.1 else []
    case _ => []
  }

  /** The answer fails the language check: by its script, or because the model says so. */
  predicate WrongLanguage(env: VerifierEnv, v: View, userMessage: string, expected: string) {
    !ScriptsAgree(env, v, userMessage) || (AsksLanguage(env, v, userMessage, expected) && LanguageDenied(env))
  }

  /** The model is asked whether the tool results support the answer. */
  predicate AsksGrounding(env: VerifierEnv, v: View, userMessage: string, expected: string) {
    !WrongLanguage(env, v, userMessage, expected) && v.toolResults != [] && env.hasProvider
  }

  /** The verifier behind its gate: it runs on investigative turns only, writes a report and counts
      usage, and never fails the turn or touches the answer. */
  ghost predicate Verified(env: VerifierEnv, userMessage: string, responseLanguage: string, before: View, after: View) {
    var expected := if IsSet(responseLanguage) then responseLanguage else before.userLanguage;
    if !Investigative(before) then after == before
    else
      var asked, grounding := AsksLanguage(env, before, userMessage, expected), AsksGrounding(env, before, userMessage, expected);
      && after.report == Some(VerifyReport(!WrongLanguage(env, before, userMessage, expected), !grounding || !GroundingDenied(env),
                                           if grounding then GroundingIssues(env) else []))
      && after == before.(report := after.report, usage := AddUsage(AddUsage(before.usage, if asked then ReplyUsage(env.languageReply) else NO_USAGE),
                                                                    if grounding then ReplyUsage(env.groundingReply) else NO_USAGE))
  }

  // ---------- The graph ----------

  /** Everything outside one turn: the environments of its nodes, the page whitelist and the
      configured language, how a plan is decoded, and the conversation so far. */
  datatype TurnEnv = TurnEnv(supervisor: AgentEnv, decode: string -> Option<Plan>, page: Option<seq<string>>, responseLanguage: string,
                             envs: string -> AgentEnv, webEnabled: bool, synthesizer: AgentEnv, verifier: VerifierEnv)

  /** The supervisor's node: it succeeds on an accepted plan and stores its normal form. */
  ghost predicate Supervised(t: TurnEnv, before: View, after: View, ok: bool) {
    var reply := t.supervisor.oracle.reply(0);
    var accepted := if t.supervisor.ready && reply.Answered? then AcceptedPlan(t.decode(reply.message.content)) else None;
    var counted := if t.supervisor.ready then before.(usage := AddUsage(before.usage, ReplyUsage(reply))) else before;
    && (ok <==> accepted.Some?)
    && after == if !ok then counted
                else
                  var p := NormalPlan(accepted.value, t.page, t.responseLanguage);
                  counted.(plan := Some(p), userLanguage := p.userLanguage)
  }

  ghost predicate RouterRan(t: TurnEnv, history: seq<Message>, userMessage: string, before: View, after: View, ok: bool) {
    exists views, oks ::
      && Routed(Dedup(PlannedRoute(before.plan)), t.envs, Available(t.webEnabled), history, userMessage, views, oks)
      && views[0] == before && views[|oks|] == after && (ok <==> AllTrue(oks))
  }

  /** The four nodes of the graph, in order. */
  const NODES := 4

  ghost predicate NodeRan(t: TurnEnv, history: seq<Message>, userMessage: string, node: nat, before: View, after: View, ok: bool)
    requires node < NODES
  {
    if node == 0 then Supervised(t, before, after, ok)
    else if node == 1 then RouterRan(t, history, userMessage, before, after, ok)
    else if node == 2 then Synthesized(t.synthesizer, before, after, ok)
    else Verified(t.verifier, userMessage, t.responseLanguage, before, after) && ok
  }

  /** A run of the graph, with the contents before its first node and after each node that ran, and
      whether each succeeded.  Only the last to run may fail; a run that ends early without a failure
      was kept from its next node by a cancelled context. */
  ghost predicate GraphRan(t: TurnEnv, history: seq<Message>, userMessage: string, stopped: nat -> bool, trail: seq<View>, oks: seq<bool>) {
    && |trail| == |oks| + 1 <= NODES + 1
    && (forall k :: 0 <= k < |oks| ==> NodeRan(t, history, userMessage, k, trail[k], trail[k + 1], oks[k]) && !stopped(k))
    && (forall k :: 0 <= k < |oks| - 1 ==> oks[k])
    && (AllTrue(oks) && |oks| < NODES ==> stopped(|oks|))
  }

  class TurnState {
    var outputs: seq<AgentOutput>
    var toolResults: seq<QueryResult>
    var usage: Usage
    var finalResponse: string
    var plan: Option<Plan>
    var userLanguage: string
    var report: Option<VerifyReport>
    const userMessage: string
    const history: seq<Message>

    constructor (userMessage: string, history: seq<Message>)
      ensures Contents() == View([], [], NO_USAGE, "", None, "", None)
      ensures this.userMessage == userMessage && this.history == history
    {
      outputs, toolResults, usage, finalResponse, plan, userLanguage, report := [], [], NO_USAGE, "", None, "", None;
      this.userMessage, this.history := userMessage, history;
    }

    ghost function Contents(): View
      reads this
    {
      View(outputs, toolResults, usage, finalResponse, plan, userLanguage, report)
    }

    method Answer(name: string, content: string)
      modifies this
      ensures Contents() == Contribute(old(Contents()), name, content)
    {
      outputs := outputs + [AgentOutput(name, content)];
      finalResponse := content;
    }

    method RunLoop(env: AgentEnv, name: string, fallback: string, floor: int, keepRows: bool, window: nat)
      returns (ok: bool, requests: seq<seq<Message>>, ghost turns: nat, ghost out: ToolLoop.Outcome)
      modifies this
      ensures LoopEffect(env, name, fallback, floor, keepRows, Seed(env, history, window, userMessage),
                         old(Contents()), Contents(), ok, requests, turns, out)
      ensures AllAsk(env, history, window, userMessage, requests)
    {
      hide ToolLoop.Finishes, ToolLoop.SentRequests, ToolLoop.RowsOf, ToolLoop.UsageOf, Seed, MaxIters, AllAsk;
      var result, rows, used;
      result, requests, rows, used, turns := ToolLoop.Run(env.oracle, Seed(env, history, window, userMessage), MaxIters(env.maxToolIterations), floor);
      out := result;
      RunAsks(env, history, window, userMessage, requests);
      usage := AddUsage(usage, used);
      if keepRows {
        toolResults := toolResults + rows;
      }
      if !result.Answer? {
        return false, requests, turns, out;
      }
      Answer(name, if result.content == "" then fallback else result.content);
      ok := true;
    }

    method RunSql(env: AgentEnv) returns (ok: bool, requests: seq<seq<Message>>, ghost turns: nat, ghost out: ToolLoop.Outcome)
      modifies this
      ensures if !env.ready then !ok && requests == [] && Contents() == old(Contents())
              else LoopEffect(env, "sql", SQL_FALLBACK, Floor(old(plan)), true, Seed(env, history, 4, userMessage),
                              old(Contents()), Contents(), ok, requests, turns, out)
      ensures AllAsk(env, history, 4, userMessage, requests)
    {
      ok, requests, turns, out := false, [], 0, ToolLoop.Cancelled;
      if env.ready {
        var minToolCalls := if plan.Some? && plan.value.investigative then plan.value.minToolCalls else 0;
        ok, requests, turns, out := RunLoop(env, "sql", SQL_FALLBACK, minToolCalls, true, 4);
      }
    }

    method RunWeb(env: AgentEnv) returns (ok: bool, requests: seq<seq<Message>>, ghost turns: nat, ghost out: ToolLoop.Outcome)
      modifies this
      ensures if !env.ready then !ok && requests == [] && Contents() == old(Contents())
              else LoopEffect(env, "web", WEB_FALLBACK, 0, false, Seed(env, history, 10, userMessage),
                              old(Contents()), Contents(), ok, requests, turns, out)
      ensures AllAsk(env, history, 10, userMessage, requests)
    {
      ok, requests, turns, out := false, [], 0, ToolLoop.Cancelled;
      if env.ready {
        ok, requests, turns, out := RunLoop(env, "web", WEB_FALLBACK, 0, false, 10);
      }
    }

    method RunAction(env: AgentEnv) returns (ok: bool, requests: seq<seq<Message>>, ghost turns: nat, ghost out: ToolLoop.Outcome)
      modifies this
      ensures if !env.ready then !ok && requests == [] && Contents() == old(Contents())
              else if !env.hasActionTools then
                ok && requests == [] && Contents() == Contribute(old(Contents()), "action", NO_ACTION_TOOLS)
              else LoopEffect(env, "action", ACTION_FALLBACK, 0, false, Seed(env, history, 4, userMessage),
                              old(Contents()), Contents(), ok, requests, turns, out)
      ensures AllAsk(env, history, 4, userMessage, requests)
    {
      ok, requests, turns, out := false, [], 0, ToolLoop.Cancelled;
      if env.ready && !env.hasActionTools {
        Answer("action", NO_ACTION_TOOLS);
        ok := true;
      } else if env.ready {
        ok, requests, turns, out := RunLoop(env, "action", ACTION_FALLBACK, 0, false, 4);
      }
    }

    /** The knowledge-base and chat agents: one provider call whose content, empty or not, is the output. */
    method RunOneShot(env: AgentEnv, name: string) returns (ok: bool, requests: seq<seq<Message>>)
      modifies this
      ensures OneShotRan(env, name, old(Contents()), Contents(), ok)
      ensures |requests| == (if env.ready then 1 else 0) && AllAsk(env, history, 4, userMessage, requests)
    {
      hide Seed, AllAsk;
      OneAsks(env, history, 4, userMessage);
      if !env.ready {
        return false, [];
      }
      requests := [Seed(env, history, 4, userMessage)];
      if !env.oracle.reply(0).Answered? {
        return false, requests;
      }
      var reply := env.oracle.reply(0);
      if reply.usage.Some? {
        usage := AddUsage(usage, reply.usage.value);
      }
      Answer(name, reply.message.content);
      ok := true;
    }

    method RunAgent(name: string, env: AgentEnv) returns (ok: bool)
      requires name in AGENTS
      modifies this
      ensures AgentRan(name, env, history, userMessage, old(Contents()), Contents(), ok)
    {
      hide LoopEffect, OneShotRan, Seed, Floor;
      var requests;
      ghost var turns, out;
      if name == "sql" {
        ok, requests, turns, out := RunSql(env);
      } else if name == "web" {
        ok, requests, turns, out := RunWeb(env);
      } else if name == "action" {
        ok, requests, turns, out := RunAction(env);
      } else {
        ok, requests := RunOneShot(env, name);
      }
    }

    /** The supervisor node: one provider call, decoded, validated and normalised into the plan. */
    method Supervise(t: TurnEnv) returns (ok: bool, requests: seq<seq<Message>>)
      modifies this
      ensures Supervised(t, old(Contents()), Contents(), ok)
      ensures |requests| == (if t.supervisor.ready then 1 else 0) && AllAsk(t.supervisor, [], 0, userMessage, requests)
    {
      hide AcceptedPlan, NormalPlan;
      if !t.supervisor.ready {
        return false, [];
      }
      requests := [[Plain(SYSTEM, t.supervisor.system), Plain(SYSTEM, t.supervisor.context), Plain(USER, userMessage)]];
      if !t.supervisor.oracle.reply(0).Answered? {
        return false, requests;
      }
      var reply := t.supervisor.oracle.reply(0);
      if reply.usage.Some? {
        usage := AddUsage(usage, reply.usage.value);
      }
      var parsed := ParseSupervisorPlan(t.decode(reply.message.content));
      if parsed.None? {
        return false, requests;
      }
      var p := NormalisePlan(parsed.value, t.page, t.responseLanguage);
      plan, userLanguage := Some(p), p.userLanguage;
      ok := true;
    }

    /** Runs the planned agents, each once, in order of first mention; a failing or unknown agent
        does not stop the others. */
    method Route(t: TurnEnv) returns (ok: bool)
      modifies this
      ensures RouterRan(t, history, userMessage, old(Contents()), Contents(), ok)
    {
      hide AgentRan, Dedup;
      var planned := if plan.Some? then plan.value.route else ["chat"];
      var route := DedupRoute(planned);
      var agents := Available(t.webEnabled);
      ghost var views, oks := [Contents()], [];
      ok := true;
      for i := 0 to |route|
        invariant |oks| == i && |views| == i + 1
        invariant views[0] == old(Contents()) && views[i] == Contents()
        invariant forall k :: 0 <= k < i ==>
                    RouteStep(route[k], t.envs(route[k]), route[k] in agents, history, userMessage, views[k], views[k + 1], oks[k])
        invariant ok <==> AllTrue(oks)
      {
        var succeeded := false;
        if route[i] in agents {
          succeeded := RunAgent(route[i], t.envs(route[i]));
        }
        AllTrueSnoc(oks, succeeded);
        ok := ok && succeeded;
        views, oks := views + [Contents()], oks + [succeeded];
      }
      assert Routed(route, t.envs, agents, history, userMessage, views, oks);
    }

    method Synthesize(env: AgentEnv) returns (ok: bool)
      modifies this
      ensures Synthesized(env, old(Contents()), Contents(), ok)
    {
      if |outputs| < 2 && !(plan.Some? && plan.value.requiresSynthesis) {
        return true;
      }
      if !env.ready {
        return false;
      }
      if |outputs| == 0 {
        return true;
      }
      if |outputs| == 1 {
        finalResponse := outputs[0].content;
        return true;
      }
      var reply := env.oracle.reply(0);
      if !reply.Answered? {
        return false;
      }
      if reply.usage.Some? {
        usage := AddUsage(usage, reply.usage.value);
      }
      finalResponse := reply.message.content;
      ok := true;
    }

    /** Asks the model about the language; a failed call or an unreadable reply denies nothing. */
    method LanguageCheck(env: VerifierEnv) returns (ok: bool)
      modifies this
      ensures Contents() == old(Contents()).(usage := AddUsage(old(usage), ReplyUsage(env.languageReply)))
      ensures ok == !LanguageDenied(env)
    {
      if !env.languageReply.Answered? {
        return true;
      }
      if env.languageReply.usage.Some? {
        usage := AddUsage(usage, env.languageReply.usage.value);
      }
      var verdict := env.readLanguage(env.languageReply.message.content);
      ok := verdict.None? || verdict.value;
    }

    /** Asks the model whether the tool results support the answer; an unreadable reply passes, a
        failed call does not. */
    method GroundingCheck(env: VerifierEnv) returns (ok: bool, issues: seq<string>)
      modifies this
      ensures Contents() == old(Contents()).(usage := AddUsage(old(usage), ReplyUsage(env.groundingReply)))
      ensures ok == !GroundingDenied(env) && issues == GroundingIssues(env)
    {
      if !env.groundingReply.Answered? {
        return false, [];
      }
      if env.groundingReply.usage.Some? {
        usage := AddUsage(usage, env.groundingReply.usage.value);
      }
      var verdict := env.readGrounding(env.groundingReply.message.content);
      if verdict.None? {
        return true, [];
      }
      ok, issues := verdict.value.0, verdict.value.1;
    }

    method Verify(env: VerifierEnv, responseLanguage: string)
      modifies this
      ensures Verified(env, userMessage, responseLanguage, old(Contents()), Contents())
    {
      AddNothing();
      hide Script.ScriptsMatch, Script.NeedsLanguageCall, AddUsage, LanguageDenied, GroundingDenied, GroundingIssues;
      if !(plan.Some? && plan.value.investigative) {
        return;
      }
      var expected := userLanguage;
      if responseLanguage != "" && responseLanguage != "auto" {
        expected := responseLanguage;
      }
      var question, answer := env.script(userMessage), env.script(finalResponse);
      var languageOk, groundingOk, issues := Script.ScriptsMatch(question, answer), true, [];
      if languageOk && env.hasProvider && Script.NeedsLanguageCall(question, answer, env.bytes(finalResponse), expected) {
        languageOk := LanguageCheck(env);
      }
      if languageOk && |toolResults| > 0 && env.hasProvider {
        groundingOk, issues := GroundingCheck(env);
      }
      report := Some(VerifyReport(languageOk, groundingOk, issues));
    }

    /** A whole turn through the graph.  `stopped` says whether the context is cancelled before each node. */
    method RunTurn(t: TurnEnv, stopped: nat -> bool) returns (ok: bool, ghost trail: seq<View>, ghost oks: seq<bool>)
      modifies this
      ensures GraphRan(t, history, userMessage, stopped, trail, oks) && (ok <==> |oks| == NODES && AllTrue(oks))
      ensures trail[0] == old(Contents()) && trail[|trail| - 1] == Contents()
    {
      hide Supervised, RouterRan, Synthesized, Verified;
      trail, oks := [Contents()], [];
      if stopped(0) {
        return false, trail, oks;
      }
      var requests;
      ok, requests := Supervise(t);
      AllTrueSnoc(oks, ok);
      trail, oks := trail + [Contents()], oks + [ok];
      if !ok || stopped(1) {
        return false, trail, oks;
      }
      ok := Route(t);
      AllTrueSnoc(oks, ok);
      trail, oks := trail + [Contents()], oks + [ok];
      if !ok || stopped(2) {
        return false, trail, oks;
      }
      ok := Synthesize(t.synthesizer);
      AllTrueSnoc(oks, ok);
      trail, oks := trail + [Contents()], oks + [ok];
      if !ok || stopped(3) {
        return false, trail, oks;
      }
      Verify(t.verifier, t.responseLanguage);
      trail, oks := trail + [Contents()], oks + [true];
    }
  }

  // ---------- Sequences of agent runs ----------

  /** A run of the tool loop on behalf of an agent makes at most the set number of provider calls, five
      if none is set.  A success adds one non-empty output, the final answer or the fallback for an
      empty one; a failure adds none.  The rows are kept for the SQL agent only, and the usage of all
      replies is counted either way. */
  lemma LoopContributes(env: AgentEnv, name: string, fallback: string, floor: int, keepRows: bool, seed: seq<Message>,
                        before: View, after: View, ok: bool, requests: seq<seq<Message>>, turns: nat, out: ToolLoop.Outcome)
    requires LoopEffect(env, name, fallback, floor, keepRows, seed, before, after, ok, requests, turns, out) && fallback != ""
    ensures |requests| <= if env.maxToolIterations <= 0 then 5 else env.maxToolIterations
    ensures ok <==> out.Answer?
    ensures var answer := if out.Answer? then (if out.content != "" then out.content else fallback) else "";
            && after.outputs == before.outputs + (if ok then [AgentOutput(name, answer)] else [])
            && after.finalResponse == if ok then answer else before.finalResponse
    ensures before.toolResults <= after.toolResults
    ensures |after.toolResults| == |before.toolResults| + if keepRows then ToolLoop.SuccessesBefore(env.oracle, turns) else 0
    ensures AgentEffect(name, before, after, ok)
    ensures Counted(before.usage, after.usage, ToolLoop.Totals(env.oracle, |requests|))
  {
    ToolLoop.RowsCounted(env.oracle, turns);
    ToolLoop.UsageTotals(env.oracle, |requests|);
    hide ToolLoop.Finishes, ToolLoop.SentRequests, ToolLoop.RowsOf, ToolLoop.UsageOf, ToolLoop.Totals, ToolLoop.SuccessesBefore;
    assert |requests| <= MaxIters(env.maxToolIterations) by {
      CallsBounded(env.oracle, MaxIters(env.maxToolIterations), floor, |requests|, turns, out);
    }
  }

  lemma CallsBounded(o: Oracle, maxIters: nat, floor: int, calls: nat, turns: nat, out: ToolLoop.Outcome)
    requires ToolLoop.Finishes(o, maxIters, floor, calls, turns, out)
    ensures calls <= maxIters
  {
  }

  /** Each figure of the usage has grown by that of `more`. */
  ghost predicate Counted(before: Usage, after: Usage, more: Usage) {
    && after.prompt == before.prompt + more.prompt && after.completion == before.completion + more.completion
    && after.total == before.total + more.total && after.cached == before.cached + more.cached
  }

  /** What a reply reports; nothing when it fails or does not say. */
  function Reported(r: Reply): Usage {
    match r
    case Answered(_, Some(usage)) => usage
    case _ => Usage(0, 0, 0, 0)
  }

  /** What each agent's answer is made of, and when it keeps rows: a looping agent says what some reply
      without tool calls said, or its own fallback; the others say what their one reply said. */
  lemma AgentAnswers(name: string, env: AgentEnv, history: seq<Message>, userMessage: string, before: View, after: View, ok: bool)
    requires AgentRan(name, env, history, userMessage, before, after, ok)
    ensures !env.ready ==> !ok && after == before
    ensures name != "sql" ==> after.toolResults == before.toolResults
    ensures name !in {"sql", "web", "action"} && ok ==> env.oracle.reply(0).Answered? && after.finalResponse == env.oracle.reply(0).message.content
    ensures name == "action" && env.ready && !env.hasActionTools ==>
              ok && after.finalResponse == "I don't have any action tools configured for this chatbot."
    ensures name == "sql" && ok && !Said(env.oracle, after.finalResponse) ==>
              after.finalResponse == "I wasn't able to complete my investigation. Please try rephrasing your question."
    ensures name == "web" && ok && !Said(env.oracle, after.finalResponse) ==>
              after.finalResponse == "I wasn't able to find current information on that. Please try rephrasing or check back later."
    ensures name == "action" && ok && env.hasActionTools && !Said(env.oracle, after.finalResponse) ==> after.finalResponse == "Action completed."
  {
    hide Seed, ToolLoop.SentRequests, ToolLoop.RowsOf, ToolLoop.UsageOf, ToolLoop.CallCount;
    if name in {"sql", "web", "action"} && env.ready && ok && (name == "action" ==> env.hasActionTools) {
      var fallback := if name == "sql" then SQL_FALLBACK else if name == "web" then WEB_FALLBACK else ACTION_FALLBACK;
      var floor := if name == "sql" then Floor(before.plan) else 0;
      var seed := Seed(env, history, if name == "web" then 10 else 4, userMessage);
      hide LoopEffect, Floor;
      var requests, turns, out :| LoopEffect(env, name, fallback, floor, name == "sql", seed, before, after, ok, requests, turns, out);
      LoopSays(env, name, fallback, floor, name == "sql", seed, before, after, requests, turns, out);
    }
  }

  /** Some reply without tool calls had this text. */
  ghost predicate Said(o: Oracle, text: string) {
    exists i :: SaidAt(o, i, text)
  }

  ghost predicate SaidAt(o: Oracle, i: nat, text: string) {
    o.reply(i).Answered? && o.reply(i).message.toolCalls == [] && o.reply(i).message.content == text
  }

  lemma LoopSays(env: AgentEnv, name: string, fallback: string, floor: int, keepRows: bool, seed: seq<Message>,
                 before: View, after: View, requests: seq<seq<Message>>, turns: nat, out: ToolLoop.Outcome)
    requires LoopEffect(env, name, fallback, floor, keepRows, seed, before, after, true, requests, turns, out)
    ensures after.finalResponse == fallback || Said(env.oracle, after.finalResponse)
  {
    hide ToolLoop.SentRequests, ToolLoop.RowsOf, ToolLoop.UsageOf;
    ToolLoop.EndsExactly(env.oracle, MaxIters(env.maxToolIterations), floor, |requests|, turns, out);
    if out.content != "" {
      assert SaidAt(env.oracle, |requests| - 1, out.content);
    }
  }

  /** Without an investigative plan nothing is pushed back: every turn but the last asked for tools. */
  lemma NoFloorNoPushBack(env: AgentEnv, seed: seq<Message>, before: View, after: View, ok: bool,
                          requests: seq<seq<Message>>, turns: nat, out: ToolLoop.Outcome, i: nat)
    requires !Investigative(before) && i < turns
    requires LoopEffect(env, "sql", SQL_FALLBACK, Floor(before.plan), true, seed, before, after, ok, requests, turns, out)
    ensures env.oracle.reply(i).Answered? && env.oracle.reply(i).message.toolCalls != []
  {
    hide ToolLoop.SentRequests, ToolLoop.RowsOf, ToolLoop.UsageOf;
    assert ToolLoop.Continues(env.oracle, MaxIters(env.maxToolIterations), Floor(before.plan), i);
  }

  /** Under an investigative plan, a SQL answer given before the last allowed provider call rests on
      at least the planned number of tool results, hence on at least one. */
  lemma InvestigativeAnswerRests(decoded: Option<Plan>, page: Option<seq<string>>, responseLanguage: string, env: AgentEnv,
                                 seed: seq<Message>, before: View, after: View, requests: seq<seq<Message>>, turns: nat, out: ToolLoop.Outcome)
    requires AcceptedPlan(decoded).Some? && before.plan == Some(NormalPlan(decoded.value, page, responseLanguage))
    requires decoded.value.investigative && |requests| < MaxIters(env.maxToolIterations)
    requires LoopEffect(env, "sql", SQL_FALLBACK, Floor(before.plan), true, seed, before, after, true, requests, turns, out)
    ensures |requests| >= 2 && |seed| <= |requests[|requests| - 1]|
    ensures 1 <= before.plan.value.minToolCalls <= ToolLoop.ToolMessageCount(requests[|requests| - 1][|seed|..])
    ensures decoded.value.minToolCalls <= before.plan.value.minToolCalls
  {
    ToolLoop.FloorMet(env.oracle, seed, MaxIters(env.maxToolIterations), Floor(before.plan), requests, turns, out.content);
  }

  lemma StepEffect(name: string, env: AgentEnv, available: bool, history: seq<Message>, userMessage: string, before: View, after: View, ok: bool)
    requires RouteStep(name, env, available, history, userMessage, before, after, ok)
    ensures AgentEffect(name, before, after, ok)
  {
    hide ToolLoop.Finishes, ToolLoop.SentRequests, ToolLoop.RowsOf, ToolLoop.UsageOf, Seed, Floor;
  }

  ghost predicate AgentRuns(names: seq<string>, oks: seq<bool>, views: seq<View>) {
    && |oks| == |names| && |views| == |names| + 1
    && forall i :: 0 <= i < |names| ==> AgentEffect(names[i], views[i], views[i + 1], oks[i])
  }

  /** The agents among the first k that succeeded, in order. */
  function Succeeded(names: seq<string>, oks: seq<bool>, k: nat): seq<string>
    requires |oks| == |names| && k <= |names|
  {
    if k == 0 then [] else Succeeded(names, oks, k - 1) + (if oks[k - 1] then [names[k - 1]] else [])
  }

  /** Over any sequence of agent runs the outputs grow by exactly one per success, and the final
      response is the newest of them. */
  lemma {:induction false} OutputsAccumulate(names: seq<string>, oks: seq<bool>, views: seq<View>, k: nat)
    requires AgentRuns(names, oks, views) && k <= |names|
    ensures AddedOutputs(views[0], views[k], Succeeded(names, oks, k))
  {
    if k == 0 {
      RanNone(views[0].outputs);
    } else {
      assert AgentEffect(names[k - 1], views[k - 1], views[k], oks[k - 1]);
      OutputsAccumulate(names, oks, views, k - 1);
      hide AgentRuns, AgentEffect, AddedOutputs;
      OneMoreAgent(names[k - 1], views[0], views[k - 1], views[k], oks[k - 1], Succeeded(names, oks, k - 1));
    }
  }

  /** One more output per agent of `done`, in that order, and the newest output is the response. */
  ghost predicate AddedOutputs(before: View, after: View, done: seq<string>) {
    && RanAgents(before.outputs, after.outputs, done) && before.outputs <= after.outputs
    && after.finalResponse == if done == [] then before.finalResponse else after.outputs[|after.outputs| - 1].content
  }

  lemma OneMoreAgent(name: string, first: View, before: View, after: View, ok: bool, done: seq<string>)
    requires AddedOutputs(first, before, done) && AgentEffect(name, before, after, ok)
    ensures AddedOutputs(first, after, done + (if ok then [name] else []))
  {
    if ok {
      RanSnoc(first.outputs, before.outputs, done, AgentOutput(name, after.finalResponse));
    } else {
      assert done + [] == done;
    }
  }

  // ---------- Facts about routes and outputs ----------

  function Available(webEnabled: bool): set<string> {
    if webEnabled then AGENTS else AGENTS - {"web"}
  }

  function PlannedRoute(plan: Option<Plan>): seq<string> {
    if plan.Some? then plan.value.route else ["chat"]
  }

  function Dedup(route: seq<string>): seq<string> {
    if route == [] then []
    else
      var init := Dedup(route[..|route| - 1]);
      if route[|route| - 1] in init then init else init + [route[|route| - 1]]
  }

  method DedupRoute(planned: seq<string>) returns (route: seq<string>)
    ensures route == Dedup(planned)
  {
    var seen: set<string> := {};
    route := [];
    for i := 0 to |planned|
      invariant route == Dedup(planned[..i])
      invariant forall x :: x in seen <==> x in route
    {
      assert planned[..i + 1][..i] == planned[..i];
      if planned[i] !in seen {
        seen := seen + {planned[i]};
        route := route + [planned[i]];
      }
    }
    assert planned[..|planned|] == planned;
  }

  /** Where the plan mentions an agent first; its length when it does not. */
  function FirstMention(route: seq<string>, name: string): (r: nat)
    ensures r <= |route| && (name in route <==> r < |route|)
    ensures r < |route| ==> route[r] == name && name !in route[..r]
  {
    if route == [] || route[0] == name then 0
    else
      var r := 1 + FirstMention(route[1..], name);
      assert route[..r] == [route[0]] + route[1..][..r - 1];
      r
  }

  lemma {:induction false} MentionAt(route: seq<string>, name: string, k: nat)
    requires k < |route| && route[k] == name && name !in route[..k]
    ensures FirstMention(route, name) == k
  {
    if k > 0 {
      assert route[0] in route[..k];
      assert route[..k] == [route[0]] + route[1..][..k - 1];
      MentionAt(route[1..], name, k - 1);
    }
  }

  lemma MentionSnoc(route: seq<string>, name: string)
    requires route != []
    ensures var init := route[..|route| - 1];
            FirstMention(route, name) == if name in init then FirstMention(init, name) else if name == route[|route| - 1] then |init| else |route|
  {
    var init := route[..|route| - 1];
    assert route == init + [route[|route| - 1]];
    if name in init {
      var first := FirstMention(init, name);
      assert route[..first] == init[..first];
      MentionAt(route, name, first);
    } else if name == route[|route| - 1] {
      MentionAt(route, name, |init|);
    }
  }

  /** Removing repetitions keeps every agent once, in the order in which the plan first mentions them. */
  lemma {:induction false} DedupSpec(route: seq<string>)
    ensures var r := Dedup(route);
            && (forall x :: x in r <==> x in route)
            && (forall i, j :: 0 <= i < j < |r| ==> r[i] != r[j] && FirstMention(route, r[i]) < FirstMention(route, r[j]))
            && Subsequence(r, route)
  {
    if route != [] {
      var init, last := route[..|route| - 1], route[|route| - 1];
      DedupSpec(init);
      hide FirstMention;
      assert route == init + [last];
      var before, r := Dedup(init), Dedup(route);
      assert (before + [last])[..|before|] == before;
      forall i, j | 0 <= i < j < |r|
        ensures r[i] != r[j] && FirstMention(route, r[i]) < FirstMention(route, r[j])
      {
        MentionSnoc(route, r[i]);
        MentionSnoc(route, r[j]);
      }
    }
  }

  /** The outputs grew by one entry per successful agent, in order, never empty for the looping agents. */
  ghost predicate RanAgents(before: seq<AgentOutput>, after: seq<AgentOutput>, done: seq<string>) {
    && |after| == |before| + |done|
    && forall i :: 0 <= i < |done| ==>
         && after[|before| + i].name == done[i]
         && (done[i] in {"sql", "web", "action"} ==> after[|before| + i].content != "")
  }

  /** One output per agent of the plan, each agent once and on the page's whitelist. */
  ghost predicate RoutedTurn(v: View, page: Option<seq<string>>) {
    var route := Dedup(PlannedRoute(v.plan));
    && |v.outputs| == |route| >= 1
    && (forall i :: 0 <= i < |route| ==> v.outputs[i].name == route[i])
    && (forall i, j :: 0 <= i < j < |v.outputs| ==> v.outputs[i].name != v.outputs[j].name)
    && (forall x :: x in v.outputs && x.name in {"sql", "web", "action"} ==> x.content != "")
    && (page.Some? && page.value != [] ==> forall x :: x in v.outputs ==> x.name in page.value)
  }

  lemma RanNone(before: seq<AgentOutput>)
    ensures RanAgents(before, before, [])
  {
  }

  lemma RanSnoc(before: seq<AgentOutput>, mid: seq<AgentOutput>, done: seq<string>, x: AgentOutput)
    requires RanAgents(before, mid, done)
    requires x.name in {"sql", "web", "action"} ==> x.content != ""
    ensures RanAgents(before, mid + [x], done + [x.name])
  {
  }

  lemma AllTrueSnoc(oks: seq<bool>, b: bool)
    ensures AllTrue(oks + [b]) <==> AllTrue(oks) && b
  {
    assert forall i :: 0 <= i < |oks| ==> (oks + [b])[i] == oks[i];
    assert (oks + [b])[|oks|] == b;
  }

  lemma {:induction false} AllSucceeded(names: seq<string>, oks: seq<bool>, k: nat)
    requires |oks| == |names| && k <= |names| && AllTrue(oks)
    ensures Succeeded(names, oks, k) == names[..k]
  {
    if k > 0 {
      AllSucceeded(names, oks, k - 1);
    }
  }

  /** What each node of a run did. */
  lemma NodesRan(t: TurnEnv, history: seq<Message>, userMessage: string, stopped: nat -> bool, trail: seq<View>, oks: seq<bool>)
    requires GraphRan(t, history, userMessage, stopped, trail, oks)
    ensures |trail| == |oks| + 1 <= NODES + 1
    ensures |oks| >= 1 ==> Supervised(t, trail[0], trail[1], oks[0])
    ensures |oks| >= 2 ==> oks[0] && RouterRan(t, history, userMessage, trail[1], trail[2], oks[1])
    ensures |oks| >= 3 ==> oks[1] && Synthesized(t.synthesizer, trail[2], trail[3], oks[2])
    ensures |oks| >= 4 ==> oks[2] && Verified(t.verifier, userMessage, t.responseLanguage, trail[3], trail[4]) && oks[3]
  {
    hide Supervised, RouterRan, Synthesized, Verified;
    assert forall k :: 0 <= k < |oks| ==> NodeRan(t, history, userMessage, k, trail[k], trail[k + 1], oks[k]);
  }

  /** What routing leaves, whether or not all agents succeeded: one more output for each that did, in
      planned order, each agent at most once, known and available. */
  lemma RouterOutputs(t: TurnEnv, history: seq<Message>, userMessage: string, before: View, after: View, ok: bool) returns (done: seq<string>)
    requires RouterRan(t, history, userMessage, before, after, ok)
    ensures AddedOutputs(before, after, done) && SameButOutputs(before, after)
    ensures Subsequence(done, Dedup(PlannedRoute(before.plan))) && AllIn(done, Available(t.webEnabled))
    ensures ok ==> done == Dedup(PlannedRoute(before.plan))
    ensures |done| <= |Dedup(PlannedRoute(before.plan))| && (ok <==> |done| == |Dedup(PlannedRoute(before.plan))|)
  {
    var route, agents := Dedup(PlannedRoute(before.plan)), Available(t.webEnabled);
    var views, oks :| Routed(route, t.envs, agents, history, userMessage, views, oks)
      && views[0] == before && views[|oks|] == after && (ok <==> AllTrue(oks));
    hide RouteStep, Dedup, PlannedRoute, Subsequence, Available, AgentRuns, AllTrue, SameButOutputs, Succeeded, AddedOutputs, AllIn;
    RoutedEffects(route, t.envs, agents, history, userMessage, views, oks);
    AgentsAdd(route, oks, views);
    done := Succeeded(route, oks, |route|);
    SucceededAmong(route, oks, agents, |route|);
    SucceededCount(route, oks, |route|);
    AllTrueMeans(oks);
    assert route[..|route|] == route;
    if ok {
      AllSucceeded(route, oks, |route|);
    }
  }

  lemma AgentsAdd(route: seq<string>, oks: seq<bool>, views: seq<View>)
    requires AgentRuns(route, oks, views)
    ensures AddedOutputs(views[0], views[|oks|], Succeeded(route, oks, |route|)) && SameButOutputs(views[0], views[|oks|])
  {
    hide AgentEffect, AddedOutputs, SameButOutputs, Succeeded;
    OutputsAccumulate(route, oks, views, |route|);
    PlanKept(route, oks, views, |route|);
  }

  ghost predicate AllIn(names: seq<string>, agents: set<string>) {
    forall x :: x in names ==> x in agents
  }

  lemma RoutedEffects(route: seq<string>, envs: string -> AgentEnv, agents: set<string>, history: seq<Message>, userMessage: string,
                      views: seq<View>, oks: seq<bool>)
    requires Routed(route, envs, agents, history, userMessage, views, oks)
    ensures AgentRuns(route, oks, views) && forall i :: 0 <= i < |route| && oks[i] ==> route[i] in agents
  {
    hide RouteStep, AgentEffect;
    forall i | 0 <= i < |route|
      ensures AgentEffect(route[i], views[i], views[i + 1], oks[i]) && (oks[i] ==> route[i] in agents)
    {
      StepEffect(route[i], envs(route[i]), route[i] in agents, history, userMessage, views[i], views[i + 1], oks[i]);
      if oks[i] {
        StepAvailable(route[i], envs(route[i]), route[i] in agents, history, userMessage, views[i], views[i + 1], oks[i]);
      }
    }
  }

  /** Agents leave the plan, the language and the report alone. */
  ghost predicate SameButOutputs(before: View, after: View) {
    after.plan == before.plan && after.userLanguage == before.userLanguage && after.report == before.report
  }

  lemma {:induction false} SucceededCount(names: seq<string>, oks: seq<bool>, k: nat)
    requires |oks| == |names| && k <= |names|
    ensures |Succeeded(names, oks, k)| <= k
    ensures |Succeeded(names, oks, k)| == k <==> forall i :: 0 <= i < k ==> oks[i]
  {
    if k > 0 {
      SucceededCount(names, oks, k - 1);
    }
  }

  lemma AllTrueMeans(oks: seq<bool>)
    ensures AllTrue(oks) <==> forall i :: 0 <= i < |oks| ==> oks[i]
  {
  }

  lemma {:induction false} SucceededAmong(names: seq<string>, oks: seq<bool>, agents: set<string>, k: nat)
    requires |oks| == |names| && k <= |names| && forall i :: 0 <= i < k && oks[i] ==> names[i] in agents
    ensures Subsequence(Succeeded(names, oks, k), names[..k]) && AllIn(Succeeded(names, oks, k), agents)
  {
    if k > 0 {
      SucceededAmong(names, oks, agents, k - 1);
      var before := Succeeded(names, oks, k - 1);
      assert names[..k][..k - 1] == names[..k - 1];
      if oks[k - 1] {
        assert (before + [names[k - 1]])[..|before|] == before;
      } else {
        assert Succeeded(names, oks, k) == before;
      }
    }
  }

  /** What a turn that went through leaves: one output per agent of the plan, each agent once, all on
      the page's whitelist and available, the final response that goes with their number, and a
      report if the plan is investigative. */
  lemma TurnSummary(t: TurnEnv, history: seq<Message>, userMessage: string, stopped: nat -> bool, trail: seq<View>, oks: seq<bool>)
    requires GraphRan(t, history, userMessage, stopped, trail, oks) && |oks| == NODES && AllTrue(oks) && trail[0].outputs == []
    ensures var after := trail[NODES];
            && after.plan.Some? && RoutedTurn(after, t.page)
            && (forall x :: x in after.outputs ==> x.name in Available(t.webEnabled))
            && (|after.outputs| == 1 ==> after.finalResponse == after.outputs[0].content)
            && (|after.outputs| >= 2 ==>
                  var merged := t.synthesizer.oracle.reply(0);
                  merged.Answered? && after.finalResponse == merged.message.content)
            && (Investigative(after) ==> after.report.Some?)
  {
    NodesRan(t, history, userMessage, stopped, trail, oks);
    assert oks[0] && oks[1] && oks[2] && oks[3];
    hide GraphRan, AllTrue, Supervised, RouterRan, Synthesized, Verified, RoutedTurn, Available, Investigative;
    AnsweredPlan(t, history, userMessage, trail[0], trail[1], trail[2]);
    AnswerOf(t.synthesizer, trail[2], trail[3]);
    VerifierKeeps(t.verifier, userMessage, t.responseLanguage, trail[3], trail[4]);
    SameOutputsRouted(trail[2], trail[4], t.page);
  }

  /** Between router and synthesizer the turn already has its outputs. */
  lemma AnsweredPlan(t: TurnEnv, history: seq<Message>, userMessage: string, before: View, planned: View, routed: View)
    requires Supervised(t, before, planned, true) && RouterRan(t, history, userMessage, planned, routed, true) && before.outputs == []
    ensures routed.plan.Some? && RoutedTurn(routed, t.page) && forall x :: x in routed.outputs ==> x.name in Available(t.webEnabled)
    ensures |routed.outputs| == 1 ==> routed.finalResponse == routed.outputs[0].content
  {
    PlanStored(t, before, planned);
    hide Supervised, RouterRan, RoutedTurn, Available, NormalRoute, AcceptedPlan, Dedup, AddedOutputs, SameButOutputs, AllIn, PlannedRoute, Subsequence;
    var done := RouterOutputs(t, history, userMessage, planned, routed, true);
    AnsweredRoute(planned, routed, t.decode(t.supervisor.oracle.reply(0).message.content).value.route, t.page, done, Available(t.webEnabled));
  }

  lemma AnsweredRoute(planned: View, routed: View, route: seq<string>, page: Option<seq<string>>, done: seq<string>, agents: set<string>)
    requires planned.plan.Some? && planned.plan.value.route == NormalRoute(route, page) && planned.outputs == []
    requires AddedOutputs(planned, routed, done) && SameButOutputs(planned, routed)
    requires done == Dedup(PlannedRoute(planned.plan)) && AllIn(done, agents)
    ensures routed.plan.Some? && RoutedTurn(routed, page) && forall x :: x in routed.outputs ==> x.name in agents
    ensures |routed.outputs| == 1 ==> routed.finalResponse == routed.outputs[0].content
  {
    hide RoutedTurn, NormalRoute, Dedup, PlannedRoute, AddedOutputs, AllIn;
    SoleAnswer(planned, routed, done, agents);
    TurnAnswered(routed, route, page, done);
  }

  /** Starting from no output. */
  lemma SoleAnswer(before: View, after: View, done: seq<string>, agents: set<string>)
    requires AddedOutputs(before, after, done) && AllIn(done, agents) && before.outputs == []
    ensures RanAgents([], after.outputs, done) && forall x :: x in after.outputs ==> x.name in agents
    ensures |after.outputs| == 1 ==> after.finalResponse == after.outputs[0].content
  {
    OutputNames(after.outputs, done);
  }

  lemma SameOutputsRouted(v: View, w: View, page: Option<seq<string>>)
    requires RoutedTurn(v, page) && w.outputs == v.outputs && w.plan == v.plan
    ensures RoutedTurn(w, page)
  {
  }

  lemma PlanStored(t: TurnEnv, before: View, after: View)
    requires Supervised(t, before, after, true)
    ensures var decoded := t.decode(t.supervisor.oracle.reply(0).message.content);
            && t.supervisor.oracle.reply(0).Answered? && AcceptedPlan(decoded).Some? && decoded.Some?
            && after.plan.Some? && after.plan.value.route == NormalRoute(decoded.value.route, t.page)
            && after.outputs == before.outputs
  {
  }

  lemma AnswerOf(env: AgentEnv, before: View, after: View)
    requires Synthesized(env, before, after, true)
    ensures after.outputs == before.outputs && after.plan == before.plan
    ensures |before.outputs| >= 2 ==> env.oracle.reply(0).Answered? && after.finalResponse == env.oracle.reply(0).message.content
    ensures |before.outputs| < 2 ==> after.finalResponse == before.finalResponse || (|before.outputs| == 1 && after.finalResponse == before.outputs[0].content)
  {
  }

  /** The verifier leaves the answer as it is, and writes a report exactly on investigative turns. */
  lemma VerifierKeeps(env: VerifierEnv, userMessage: string, responseLanguage: string, before: View, after: View)
    requires Verified(env, userMessage, responseLanguage, before, after)
    ensures after.outputs == before.outputs && after.finalResponse == before.finalResponse && after.plan == before.plan
    ensures if Investigative(before) then after.report.Some? else after == before
    ensures Investigative(after) ==> after.report.Some?
  {
    hide AsksLanguage, AsksGrounding, WrongLanguage;
  }

  /** When the report faults an answer.  The language is wrong exactly when two different scripts each
      hold at least 60 percent of the letters of question and answer, or when both are mostly Latin,
      the answer has at least 20 bytes, a language is expected and the model denied it.  The grounding is
      bad exactly when the language is not wrong, there are tool results to compare with, and the model
      failed or found it so; an answer in the wrong language always passes as grounded. */
  lemma ReportExactly(env: VerifierEnv, userMessage: string, responseLanguage: string, before: View, after: View,
                      isLetter: char -> bool, tables: Script.Tables)
    requires Verified(env, userMessage, responseLanguage, before, after) && Investigative(before)
    requires Script.ProperTables(tables) && "latin" in tables
    requires Script.Verdict(userMessage, isLetter, tables, env.script(userMessage))
    requires Script.Verdict(before.finalResponse, isLetter, tables, env.script(before.finalResponse))
    ensures var answer, expected := before.finalResponse, if IsSet(responseLanguage) then responseLanguage else before.userLanguage;
            var report := after.report.value;
            && (!report.languageOk <==>
                  || (exists m, n :: m != n && Script.Leads(userMessage, isLetter, tables, m) && Script.Leads(answer, isLetter, tables, n))
                  || (Script.Leads(userMessage, isLetter, tables, "latin") && Script.Leads(answer, isLetter, tables, "latin")
                      && env.bytes(answer) >= 20 && expected != "" && env.hasProvider
                      && match env.languageReply case Answered(m, _) => env.readLanguage(m.content) == Some(false) case _ => false))
            && (!report.groundingOk <==>
                  report.languageOk && before.toolResults != [] && env.hasProvider &&
                  match env.groundingReply
                  case Answered(m, _) => (match env.readGrounding(m.content) case Some((false, _)) => true case _ => false)
                  case _ => true)
            && report.issues == (if report.languageOk && before.toolResults != [] && env.hasProvider && env.groundingReply.Answered?
                                 then (match env.readGrounding(env.groundingReply.message.content) case Some((_, issues)) => issues case None => [])
                                 else [])
            && (!report.languageOk ==> report.groundingOk)
  {
    hide Script.Leads, Script.Verdict, Script.ProperTables;
    var question, answer := env.script(userMessage), env.script(before.finalResponse);
    Script.MismatchExactly(userMessage, before.finalResponse, isLetter, tables, question, answer);
    Script.LeadsExactly(userMessage, isLetter, tables, question, "latin");
    Script.LeadsExactly(before.finalResponse, isLetter, tables, answer, "latin");
  }

  /** The usage of the verifier's calls is counted, that of the language call when it is made and that of
      the grounding call when the language is right and there is something to compare with. */
  lemma VerifierCounts(env: VerifierEnv, userMessage: string, responseLanguage: string, before: View, after: View)
    requires Verified(env, userMessage, responseLanguage, before, after) && Investigative(before)
    ensures var expected := if responseLanguage in {"", "auto"} then before.userLanguage else responseLanguage;
            var language := if AsksLanguage(env, before, userMessage, expected) then Reported(env.languageReply) else Usage(0, 0, 0, 0);
            var grounding := if after.report.value.languageOk && before.toolResults != [] && env.hasProvider
                             then Reported(env.groundingReply) else Usage(0, 0, 0, 0);
            exists between :: Counted(before.usage, between, language) && Counted(between, after.usage, grounding)
  {
    var expected := if IsSet(responseLanguage) then responseLanguage else before.userLanguage;
    var asked := AsksLanguage(env, before, userMessage, expected);
    hide AsksLanguage, LanguageDenied, GroundingDenied, GroundingIssues, ScriptsAgree;
    var between := AddUsage(before.usage, if asked then ReplyUsage(env.languageReply) else NO_USAGE);
    assert Counted(before.usage, between, if asked then Reported(env.languageReply) else Usage(0, 0, 0, 0));
  }

  /** A turn that fails has at most added outputs, and no report: none if it got no further than the
      supervisor, and otherwise one more per agent that succeeded, each of the plan and available.
      The final response is then the newest of them, unless a synthesis replaced it. */
  lemma FailedTurnKeeps(t: TurnEnv, history: seq<Message>, userMessage: string, stopped: nat -> bool, trail: seq<View>, oks: seq<bool>)
    returns (done: seq<string>)
    requires GraphRan(t, history, userMessage, stopped, trail, oks) && !(|oks| == NODES && AllTrue(oks))
    ensures |trail| == |oks| + 1 <= NODES
    ensures var before, after := trail[0], trail[|oks|];
            && RanAgents(before.outputs, after.outputs, done) && before.outputs <= after.outputs && after.report == before.report
            && (forall x :: x in done ==> x in PlannedRoute(after.plan) && x in Available(t.webEnabled))
            && (|oks| <= 1 ==> done == [] && after.finalResponse == before.finalResponse)
            && (|oks| == 2 ==> AddedOutputs(before, after, done))
  {
    NodesRan(t, history, userMessage, stopped, trail, oks);
    assert |oks| < NODES;
    hide GraphRan, AllTrue, RouterRan, Available, Dedup, RanAgents, Supervised, Synthesized, PlannedRoute, Subsequence;
    done := [];
    RanNone(trail[0].outputs);
    if |oks| >= 1 {
      SupervisorKeeps(t, trail[0], trail[1], oks[0]);
    }
    if |oks| >= 2 {
      done := RouterOutputs(t, history, userMessage, trail[1], trail[2], oks[1]);
      PlannedOnly(done, trail[1].plan);
    }
    if |oks| >= 3 {
      SynthesizerKeeps(t.synthesizer, trail[2], trail[3], oks[2]);
    }
  }

  /** A single agent that is unavailable or fails ends the turn at the router: it goes on to the
      synthesizer only when every planned agent added its output, and otherwise what the others added
      is neither merged nor verified. */
  lemma AgentFailureEndsTurn(t: TurnEnv, history: seq<Message>, userMessage: string, stopped: nat -> bool, trail: seq<View>, oks: seq<bool>)
    requires GraphRan(t, history, userMessage, stopped, trail, oks) && |oks| >= 2
    ensures |trail| == |oks| + 1
    ensures var route, planned, routed := Dedup(PlannedRoute(trail[1].plan)), trail[1], trail[2];
            && |planned.outputs| <= |routed.outputs| <= |planned.outputs| + |route|
            && (oks[1] <==> |routed.outputs| == |planned.outputs| + |route|)
            && (oks[1] ==> AllIn(route, Available(t.webEnabled)))
            && (!oks[1] ==> |oks| == 2 && routed.report == planned.report)
  {
    NodesRan(t, history, userMessage, stopped, trail, oks);
    hide GraphRan, RouterRan, Supervised, Synthesized, Verified, Dedup, PlannedRoute, Available, AllIn, Subsequence;
    var done := RouterOutputs(t, history, userMessage, trail[1], trail[2], oks[1]);
  }

  lemma PlannedOnly(done: seq<string>, plan: Option<Plan>)
    requires Subsequence(done, Dedup(PlannedRoute(plan)))
    ensures forall x :: x in done ==> x in PlannedRoute(plan)
  {
    hide Dedup, Subsequence, PlannedRoute;
    SubsequenceWithin(done, Dedup(PlannedRoute(plan)));
    DedupSpec(PlannedRoute(plan));
  }

  lemma SupervisorKeeps(t: TurnEnv, before: View, after: View, ok: bool)
    requires Supervised(t, before, after, ok)
    ensures after.outputs == before.outputs && after.finalResponse == before.finalResponse && after.report == before.report
  {
  }

  lemma SynthesizerKeeps(env: AgentEnv, before: View, after: View, ok: bool)
    requires Synthesized(env, before, after, ok)
    ensures after.outputs == before.outputs && after.plan == before.plan && after.report == before.report
  {
  }

  /** Which planned agents run: those four and, if it is enabled, the web agent; any other stop fails
      without effect. */
  lemma RoutedExactly(t: TurnEnv, history: seq<Message>, userMessage: string, before: View, after: View, views: seq<View>, oks: seq<bool>, i: nat)
    requires Routed(Dedup(PlannedRoute(before.plan)), t.envs, Available(t.webEnabled), history, userMessage, views, oks)
    requires i < |Dedup(PlannedRoute(before.plan))|
    ensures var name := Dedup(PlannedRoute(before.plan))[i];
            if name in {"sql", "kb", "action", "chat"} || (name == "web" && t.webEnabled)
            then AgentRan(name, t.envs(name), history, userMessage, views[i], views[i + 1], oks[i])
            else !oks[i] && views[i + 1] == views[i]
  {
    hide AgentRan, Dedup;
    assert RouteStep(Dedup(PlannedRoute(before.plan))[i], t.envs(Dedup(PlannedRoute(before.plan))[i]),
                     Dedup(PlannedRoute(before.plan))[i] in Available(t.webEnabled), history, userMessage, views[i], views[i + 1], oks[i]);
  }

  /** Without a plan the router asks the chat agent alone. */
  lemma NoPlanMeansChat(t: TurnEnv, history: seq<Message>, userMessage: string, before: View, after: View)
    requires RouterRan(t, history, userMessage, before, after, true) && before.plan.None?
    ensures |after.outputs| == |before.outputs| + 1 && after.outputs[|before.outputs|] == AgentOutput("chat", after.finalResponse)
  {
    var done := RouterOutputs(t, history, userMessage, before, after, true);
    assert ["chat"][..0] == [];
    assert done == ["chat"];
    assert after.outputs[|before.outputs| + 0].name == done[0];
  }

  /** What a successful supervisor leaves for the rest of the turn: the plan it decoded, with the
      configured language if there is one, and that language for the answers. */
  lemma SupervisorStores(t: TurnEnv, before: View, after: View)
    requires Supervised(t, before, after, true)
    ensures t.supervisor.oracle.reply(0).Answered? && t.decode(t.supervisor.oracle.reply(0).message.content).Some? && after.plan.Some?
    ensures var decoded, stored := t.decode(t.supervisor.oracle.reply(0).message.content).value, after.plan.value;
            && KnownAgents(decoded.route) && stored.route == NormalRoute(decoded.route, t.page)
            && stored.investigative == decoded.investigative && stored.requiresSynthesis == decoded.requiresSynthesis
            && after.userLanguage == (if t.responseLanguage in {"", "auto"} then decoded.userLanguage else t.responseLanguage)
            && stored.userLanguage == after.userLanguage
    ensures after.outputs == before.outputs && after.toolResults == before.toolResults && after.finalResponse == before.finalResponse
  {
  }

  /** The synthesizer's node: it has nothing to do for fewer than two outputs unless the plan asks for
      it, and fails only for want of a provider or of a reply to merge them. */
  lemma SynthesizerExactly(env: AgentEnv, before: View, after: View, ok: bool)
    requires Synthesized(env, before, after, ok)
    ensures var asked := before.plan.Some? && before.plan.value.requiresSynthesis;
            && (!ok <==> (|before.outputs| >= 2 || asked) && (!env.ready || (|before.outputs| >= 2 && !env.oracle.reply(0).Answered?)))
            && (!ok || |before.outputs| == 0 || (|before.outputs| == 1 && !asked) ==> after == before)
            && (ok && |before.outputs| == 1 && asked ==> after.finalResponse == before.outputs[0].content && after.usage == before.usage)
            && (ok && |before.outputs| >= 2 ==>
                  && after.finalResponse == env.oracle.reply(0).message.content
                  && Counted(before.usage, after.usage, Reported(env.oracle.reply(0))))
  {
  }

  /** The supervisor's and the one-shot agents' calls are counted, whatever becomes of the reply. */
  lemma CallsCounted(t: TurnEnv, env: AgentEnv, name: string, before: View, after: View, ok: bool)
    ensures Supervised(t, before, after, ok) ==>
              Counted(before.usage, after.usage, if t.supervisor.ready then Reported(t.supervisor.oracle.reply(0)) else Usage(0, 0, 0, 0))
    ensures OneShotRan(env, name, before, after, ok) ==>
              Counted(before.usage, after.usage, if ok then Reported(env.oracle.reply(0)) else Usage(0, 0, 0, 0))
  {
  }

  lemma {:induction false} SubsequenceWithin<T>(a: seq<T>, b: seq<T>)
    requires Subsequence(a, b)
    ensures forall x :: x in a ==> x in b
    decreases |b|
  {
    if a != [] {
      var init, last := b[..|b| - 1], b[|b| - 1];
      assert b == init + [last];
      if Subsequence(a, init) {
        SubsequenceWithin(a, init);
      } else {
        SubsequenceWithin(a[..|a| - 1], init);
        assert a == a[..|a| - 1] + [a[|a| - 1]];
      }
    }
  }

  lemma StepAvailable(name: string, env: AgentEnv, available: bool, history: seq<Message>, userMessage: string, before: View, after: View, ok: bool)
    requires RouteStep(name, env, available, history, userMessage, before, after, ok) && ok
    ensures available
  {
  }

  lemma {:induction false} PlanKept(names: seq<string>, oks: seq<bool>, views: seq<View>, k: nat)
    requires AgentRuns(names, oks, views) && k <= |names|
    ensures SameButOutputs(views[0], views[k])
  {
    if k > 0 {
      PlanKept(names, oks, views, k - 1);
    }
  }

  lemma OutputNames(after: seq<AgentOutput>, done: seq<string>)
    requires RanAgents([], after, done)
    ensures forall x :: x in after ==> x.name in done
  {
    forall x | x in after
      ensures x.name in done
    {
      var i :| 0 <= i < |after| && after[i] == x;
      assert after[0 + i].name == done[i];
    }
  }

  /** Before synthesis: one output per planned agent, each once, all allowed on the page. */
  lemma TurnAnswered(v: View, planned: seq<string>, page: Option<seq<string>>, done: seq<string>)
    requires v.plan.Some? && v.plan.value.route == NormalRoute(planned, page)
    requires done == Dedup(PlannedRoute(v.plan)) && RanAgents([], v.outputs, done)
    ensures RoutedTurn(v, page)
  {
    RouteNormalised(planned, page);
    var route := v.plan.value.route;
    DedupSpec(route);
    assert route[0] in Dedup(route);
    forall x | x in v.outputs
      ensures x.name in route && (x.name in {"sql", "web", "action"} ==> x.content != "")
    {
      var i :| 0 <= i < |v.outputs| && v.outputs[i] == x;
      assert v.outputs[0 + i] == x && done[i] in route;
    }
  }
}
