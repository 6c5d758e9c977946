/** The routing decision of one turn: the plan a supervisor reply decodes to, the page
    whitelist, and what normalisation guarantees about the resulting route. */
module Supervisor {
  import opened Options
  import opened Conversation

  datatype Plan = Plan(userLanguage: string, route: seq<string>, requiresSynthesis: bool, investigative: bool, minToolCalls: int)

  const AGENTS: set<string> := {"sql", "kb", "action", "chat", "web"}

  predicate KnownAgents(names: seq<string>) {
    forall x :: x in names ==> x in AGENTS
  }

  /** The plan a supervisor reply is accepted as: its decoded plan, if every route entry names an agent. */
  function AcceptedPlan(decoded: Option<Plan>): Option<Plan> {
    if decoded.Some? && KnownAgents(decoded.value.route) then decoded else None
  }

  /** Checks the route entry by entry and gives up at the first unknown one; `decoded` is None when
      the reply holds no JSON object or an invalid one. */
  method ParseSupervisorPlan(decoded: Option<Plan>) returns (plan: Option<Plan>)
    ensures plan == AcceptedPlan(decoded)
  {
    if decoded.None? {
      return None;
    }
    var route := decoded.value.route;
    for i := 0 to |route|
      invariant forall j :: 0 <= j < i ==> route[j] in AGENTS
    {
      if route[i] !in AGENTS {
        return None;
      }
    }
    plan := decoded;
  }

  // ---------- Normalisation ----------

  function Filter(route: seq<string>, agents: seq<string>): seq<string> {
    if route == [] then []
    else Filter(route[..|route| - 1], agents) + (if route[|route| - 1] in agents then [route[|route| - 1]] else [])
  }

  /** `page` is the agent whitelist of the page profile; None when there is no profile. */
  function NormalRoute(route: seq<string>, page: Option<seq<string>>): seq<string> {
    var allowed := if page.Some? && page.value != [] then
                     (var kept := Filter(route, page.value); if kept == [] then [page.value[0]] else kept)
                   else route;
    if allowed == [] then ["chat"] else allowed
  }

  /** A configured response language, which overrides a detected one. */
  predicate IsSet(language: string) {
    language != "" && language != "auto"
  }

  function NormalPlan(plan: Plan, page: Option<seq<string>>, responseLanguage: string): Plan {
    Plan(if IsSet(responseLanguage) then responseLanguage else plan.userLanguage,
         NormalRoute(plan.route, page), plan.requiresSynthesis, plan.investigative,
         if plan.investigative && plan.minToolCalls <= 0 then 1 else plan.minToolCalls)
  }

  method NormalisePlan(plan: Plan, page: Option<seq<string>>, responseLanguage: string) returns (r: Plan)
    ensures r == NormalPlan(plan, page, responseLanguage)
  {
    r := plan;
    if responseLanguage != "" && responseLanguage != "auto" {
      r := r.(userLanguage := responseLanguage);
    }
    if page.Some? && page.value != [] {
      var filtered := [];
      for i := 0 to |plan.route|
        invariant filtered == Filter(plan.route[..i], page.value)
      {
        assert plan.route[..i + 1][..i] == plan.route[..i];
        if plan.route[i] in page.value {
          filtered := filtered + [plan.route[i]];
        }
      }
      assert plan.route[..|plan.route|] == plan.route;
      if filtered == [] {
        filtered := [page.value[0]];
      }
      r := r.(route := filtered);
    }
    if r.route == [] {
      r := r.(route := ["chat"]);
    }
    if r.investigative && r.minToolCalls <= 0 {
      r := r.(minToolCalls := 1);
    }
  }

  // ---------- What a normalised route is ----------

  ghost predicate Subsequence<T>(a: seq<T>, b: seq<T>)
    decreases |b|
  {
    a == [] || (b != [] && (Subsequence(a, b[..|b| - 1]) ||
                            (a[|a| - 1] == b[|b| - 1] && Subsequence(a[..|a| - 1], b[..|b| - 1]))))
  }

  lemma {:induction false} FilterSpec(route: seq<string>, agents: seq<string>)
    ensures var r := Filter(route, agents);
            && Subsequence(r, route)
            && (forall x :: x in r <==> x in route && x in agents)
            && (forall x :: x in agents ==> multiset(r)[x] == multiset(route)[x])
  {
    if route != [] {
      var init, last := route[..|route| - 1], route[|route| - 1];
      FilterSpec(init, agents);
      assert route == init + [last];
      var f := Filter(init, agents);
      if last in agents {
        assert (f + [last])[..|f|] == f;
      } else {
        assert Filter(route, agents) == f;
      }
    }
  }

  lemma {:induction false} FilterKeepsAllowed(route: seq<string>, agents: seq<string>)
    requires forall x :: x in route ==> x in agents
    ensures Filter(route, agents) == route
  {
    if route != [] {
      FilterKeepsAllowed(route[..|route| - 1], agents);
    }
  }

  /** A normalised route is never empty.  Under a whitelist it holds allowed agents only: the
      allowed part of the plan with order and repetitions kept, or else the first allowed agent. */
  lemma RouteNormalised(route: seq<string>, page: Option<seq<string>>)
    ensures var r := NormalRoute(route, page);
            && r != []
            && (page.None? || page.value == [] ==> r == if route == [] then ["chat"] else route)
            && (page.Some? && page.value != [] ==>
                 && (forall x :: x in r ==> x in page.value)
                 && if exists x :: x in route && x in page.value
                    then Subsequence(r, route) && forall x :: x in page.value ==> multiset(r)[x] == multiset(route)[x]
                    else r == [page.value[0]])
  {
    if page.Some? && page.value != [] {
      FilterSpec(route, page.value);
      var kept := Filter(route, page.value);
      if kept != [] {
        assert kept[0] in route && kept[0] in page.value;
      }
    }
  }

  lemma RouteIdempotent(route: seq<string>, page: Option<seq<string>>)
    ensures NormalRoute(NormalRoute(route, page), page) == NormalRoute(route, page)
  {
    RouteNormalised(route, page);
    if page.Some? && page.value != [] {
      FilterKeepsAllowed(NormalRoute(route, page), page.value);
    }
  }

  /** What the rest of the turn can rely on: an accepted plan names known agents only and asks for at
      least one tool call when it is investigative, under any page whose whitelist names agents; its
      language is the configured one if there is one; and normalising again changes nothing. */
  lemma PlanNormalised(decoded: Option<Plan>, page: Option<seq<string>>, responseLanguage: string)
    requires AcceptedPlan(decoded).Some?
    requires page.Some? ==> KnownAgents(page.value)
    ensures var p := NormalPlan(decoded.value, page, responseLanguage);
            && p.route != [] && KnownAgents(p.route)
            && (p.investigative ==> p.minToolCalls >= 1)
            && NormalPlan(p, page, responseLanguage) == p
            && AcceptedPlan(Some(p)) == Some(p)
            && p.userLanguage == (if responseLanguage in {"", "auto"} then decoded.value.userLanguage else responseLanguage)
            && p.requiresSynthesis == decoded.value.requiresSynthesis && p.investigative == decoded.value.investigative
            && (p.minToolCalls != decoded.value.minToolCalls <==> p.investigative && decoded.value.minToolCalls <= 0)
            && (p.minToolCalls != decoded.value.minToolCalls ==> p.minToolCalls == 1)
  {
    RouteNormalised(decoded.value.route, page);
    RouteIdempotent(decoded.value.route, page);
  }
}
