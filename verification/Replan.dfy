// The replanning engine: one validated action at a time, under two loop guards.
module Replan {
  import opened Mission
  import opened Models
  import opened Ordering

  datatype Action =
    | RERUN_AGENT | CREATE_SPECIALIST | STOP_AGENT | PRUNE_STRATEGY | REVIVE_STRATEGY
    | RESEARCH_PASS | CALL_ROUND | PROCEED_TO_OPTIMIZATION

  datatype StrategyStatus = PROPOSED | ACTIVE | PRUNED | IMPOSSIBLE

  datatype Agent = Agent(state: AgentState, strategy: Option<Id>)

  datatype Proposal = Proposal(
    action: Action,
    agentId: Option<Id>,
    reason: string,
    strategyId: Option<Id>,
    evidenceRef: string,
    queries: seq<string>,
    gapIds: seq<Id>,
    specialist: bool)

  // An action fit to be recorded; `rewritten` when code replaced what was proposed.
  datatype Validated = Validated(action: Action, target: Option<Id>, strategy: Option<Id>, proposed: Option<Action>,
      rewritten: bool)

  // A persisted decision; `rejected` when it could not be applied.
  datatype Decision = Decision(action: Action, target: Option<Id>, proposed: Option<Action>, rewritten: bool,
      rejected: bool)

  // The mission's artifacts as a decision round loads them.
  datatype Context = Context(
    agents: map<Id, Agent>,
    strategies: map<Id, StrategyStatus>,
    openGaps: set<Id>,
    claims: set<Id>,
    callsAllowed: bool,
    budgetRemaining: nat)

  datatype ReplanError = NotReady | ProposalInvalid

  const MAX_ROUNDS := 5

  predicate InPlace(action: Action) {
    action == STOP_AGENT || action == PRUNE_STRATEGY || action == REVIVE_STRATEGY
  }

  function TargetState(action: Action): MissionStatus {
    match action
    case RERUN_AGENT => RESEARCH_RUNNING
    case CREATE_SPECIALIST => SWARM_DESIGN_RUNNING
    case RESEARCH_PASS => RESEARCH_RUNNING
    case CALL_ROUND => CALL_SELECTION_RUNNING
    case _ => OPTIMIZATION_RUNNING
  }

  // Where a mission ends up when the action goes through.
  function Destination(action: Action): MissionStatus {
    if InPlace(action) then REPLAN_DECISION_RUNNING
    else if action == CREATE_SPECIALIST then SWARM_READY
    else TargetState(action)
  }

  // The state machine never refuses what a replan decision asks for.
  lemma TransitionsAllowed(action: Action)
    requires !InPlace(action)
    ensures IsAllowed(REPLAN_DECISION_RUNNING, TargetState(action))
    ensures Destination(action) != TargetState(action) ==> IsAllowed(TargetState(action), Destination(action))
    ensures Destination(action) != REPLAN_DECISION_RUNNING
  {
  }

  // ---------------------------------------------------------------- validation

  predicate KnownAgent(ctx: Context, id: Option<Id>) {
    id.Some? && id.value in ctx.agents
  }

  predicate KnownStrategy(ctx: Context, id: Option<Id>) {
    id.Some? && id.value in ctx.strategies
  }

  predicate Aside(st: StrategyStatus) {
    st == PRUNED || st == IMPOSSIBLE
  }

  predicate CanCall(ctx: Context) {
    ctx.callsAllowed && ctx.budgetRemaining > 0
  }

  function Plain(action: Action, target: Option<Id>): Validated {
    Validated(action, target, None, None, false)
  }

  // Code steps in: proceed with the evidence at hand.
  function Forced(proposed: Option<Action>): Validated {
    Validated(PROCEED_TO_OPTIMIZATION, None, None, proposed, true)
  }

  function Validate(ctx: Context, p: Proposal, strip: string -> string): Result<Validated, ReplanError> {
    match p.action
    case RERUN_AGENT =>
      if !KnownAgent(ctx, p.agentId) || ctx.agents[p.agentId.value].state == WORKING then Err(ProposalInvalid)
      else Ok(Plain(RERUN_AGENT, p.agentId))
    case STOP_AGENT =>
      if !KnownAgent(ctx, p.agentId) || strip(p.reason) == ""
         || ctx.agents[p.agentId.value].state == STOPPED || ctx.agents[p.agentId.value].state == AgentState.FAILED
             then Err(ProposalInvalid)
      else Ok(Plain(STOP_AGENT, p.agentId))
    case PRUNE_STRATEGY =>
      if !KnownStrategy(ctx, p.strategyId) || strip(p.reason) == "" || Aside(ctx.strategies[p.strategyId.value])
          then Err(ProposalInvalid)
      else Ok(Plain(PRUNE_STRATEGY, p.strategyId))
    case REVIVE_STRATEGY =>
      if !KnownStrategy(ctx, p.strategyId) || !Aside(ctx.strategies[p.strategyId.value])
          || strip(p.evidenceRef) !in ctx.claims then Err(ProposalInvalid)
      else Ok(Plain(REVIVE_STRATEGY, p.strategyId))
    case CREATE_SPECIALIST =>
      if !p.specialist || (p.strategyId.Some? && !KnownStrategy(ctx, p.strategyId)) then Err(ProposalInvalid)
      else Ok(Validated(CREATE_SPECIALIST, None, p.strategyId, None, false))
    case RESEARCH_PASS =>
      if forall q :: q in p.queries ==> strip(q) == "" then Err(ProposalInvalid) else Ok(Plain(RESEARCH_PASS, None))
    case CALL_ROUND =>
      if p.gapIds == [] || exists g :: g in p.gapIds && g !in ctx.openGaps then Err(ProposalInvalid)
      else if !CanCall(ctx) then Ok(Validated(PROCEED_TO_OPTIMIZATION, None, None, Some(CALL_ROUND), true))
      else Ok(Plain(CALL_ROUND, None))
    case PROCEED_TO_OPTIMIZATION =>
      Ok(Plain(PROCEED_TO_OPTIMIZATION, None))
  }

  // What makes an action safe to record against the mission's artifacts.
  ghost predicate Sound(ctx: Context, v: Validated) {
    match v.action
    case RERUN_AGENT => KnownAgent(ctx, v.target)
    case STOP_AGENT => KnownAgent(ctx, v.target)
    case PRUNE_STRATEGY => KnownStrategy(ctx, v.target) && !Aside(ctx.strategies[v.target.value])
    case REVIVE_STRATEGY => KnownStrategy(ctx, v.target) && Aside(ctx.strategies[v.target.value])
    case CALL_ROUND => CanCall(ctx) && ctx.openGaps != {} && v.target.None?
    case _ => v.target.None?
  }

  // Only actions on real artifacts survive, and a call round only with a
  // permission and a budget.
  lemma ValidateSound(ctx: Context, p: Proposal, strip: string -> string)
    ensures Validate(ctx, p, strip).Ok? ==> Sound(ctx, Validate(ctx, p, strip).value)
    ensures Validate(ctx, p, strip).Ok? ==>
      var v := Validate(ctx, p, strip).value;
      (v.rewritten <==> p.action == CALL_ROUND && !CanCall(ctx)) && (!v.rewritten ==> v.action == p.action)
  {
    if p.action == CALL_ROUND && p.gapIds != [] {
      assert p.gapIds[0] in p.gapIds;
    }
  }

  // ---------------------------------------------------------------- the loop guards

  predicate LimitReached(log: seq<Decision>, maxPerMission: nat) {
    |log| >= maxPerMission
  }

  predicate Matches(d: Decision, action: Action, target: Option<Id>) {
    d.action == action && d.target == target
  }

  predicate RepeatGuard(log: seq<Decision>, v: Validated, maxSame: nat) {
    |log| >= maxSame && forall k :: |log| - maxSame <= k < |log| ==> Matches(log[k], v.action, v.target)
  }

  // ---------------------------------------------------------------- what the log never shows

  // Past the limit, only PROCEED.
  ghost predicate Capped(log: seq<Decision>, maxPerMission: nat) {
    forall k :: maxPerMission <= k < |log| ==> log[k].action == PROCEED_TO_OPTIMIZATION
  }

  // log[i..j] repeats one action on one target.
  ghost predicate Repeats(log: seq<Decision>, i: nat, j: nat)
    requires i <= j <= |log|
  {
    forall k :: i <= k < j ==> Matches(log[k], log[i].action, log[i].target)
  }

  // No action on a target more than maxSame times in a row, except PROCEED.
  ghost predicate Varied(log: seq<Decision>, maxSame: nat) {
    forall i :: 0 <= i && i + maxSame < |log| && Repeats(log, i, i + maxSame + 1) ==>
        log[i].action == PROCEED_TO_OPTIMIZATION
  }

  // Recorded targets exist.
  ghost predicate Grounded(log: seq<Decision>, ctx: Context) {
    forall k :: 0 <= k < |log| && log[k].target.Some? ==>
      if log[k].action == PRUNE_STRATEGY || log[k].action == REVIVE_STRATEGY then log[k].target.value in ctx.strategies
      else log[k].target.value in ctx.agents
  }

  lemma VariedGrows(log: seq<Decision>, d: Decision, maxSame: nat)
    requires Varied(log, maxSame) && maxSame >= 1
    requires d.action == PROCEED_TO_OPTIMIZATION
             || |log| < maxSame || exists k :: |log| - maxSame <= k < |log| && !Matches(log[k], d.action, d.target)
    ensures Varied(log + [d], maxSame)
  {
    var grown := log + [d];
    forall i | 0 <= i && i + maxSame < |grown| && Repeats(grown, i, i + maxSame + 1)
      ensures grown[i].action == PROCEED_TO_OPTIMIZATION
    {
      if i + maxSame < |log| {
        forall k | i <= k < i + maxSame + 1
          ensures Matches(log[k], log[i].action, log[i].target)
        {
          assert grown[k] == log[k] && grown[i] == log[i];
        }
        assert Repeats(log, i, i + maxSame + 1);
      } else {
        assert Matches(grown[|log|], grown[i].action, grown[i].target);
        forall k | |log| - maxSame <= k < |log|
          ensures Matches(log[k], d.action, d.target)
        {
          assert Matches(grown[k], grown[i].action, grown[i].target);
        }
      }
    }
  }

  function NonProceed(log: seq<Decision>): nat {
    if log == [] then 0
    else NonProceed(log[..|log| - 1]) + if log[|log| - 1].action != PROCEED_TO_OPTIMIZATION then 1 else 0
  }

  // Over a whole mission, at most maxPerMission decisions do anything but proceed.
  lemma {:induction false} NonProceedBounded(log: seq<Decision>, maxPerMission: nat)
    requires Capped(log, maxPerMission)
    ensures NonProceed(log) <= maxPerMission && NonProceed(log) <= |log|
  {
    if log != [] {
      var rest := log[..|log| - 1];
      NonProceedBounded(rest, maxPerMission);
    }
  }

  // ---------------------------------------------------------------- the engine

  // What the outside answers: the model, by number of decisions so far and
  // attempt; the factory, by number of decisions so far, with the new agent's
  // id and strategy when it accepts the specialist.
  datatype World = World(model: (nat, nat) -> Option<Proposal>, factory: nat -> Option<(Id, Option<Id>)>,
      strip: string -> string)

  // Agents the factory is still to create get ids no agent has.
  ghost predicate NewIdsFrom(w: World, ctx: Context, k: nat) {
    && (forall n :: n >= k && w.factory(n).Some? ==> w.factory(n).value.0 !in ctx.agents)
    && (forall m, n :: m != n && w.factory(m).Some? && w.factory(n).Some? ==>
        w.factory(m).value.0 != w.factory(n).value.0)
  }

  // Nothing that existed before is gone.
  ghost predicate Grows(a: Context, b: Context) {
    a.agents.Keys <= b.agents.Keys && a.strategies.Keys == b.strategies.Keys
    && a.openGaps == b.openGaps && a.claims == b.claims && a.callsAllowed == b.callsAllowed
        && a.budgetRemaining == b.budgetRemaining
  }

  function PrunedAgents(agents: map<Id, Agent>, strategy: Id): map<Id, Agent> {
    map a | a in agents ::
      if agents[a].strategy == Some(strategy) && agents[a].state != STOPPED && agents[a].state != AgentState.FAILED
          && agents[a].state != AgentState.COMPLETE
      then agents[a].(state := STOPPED) else agents[a]
  }

  // A guarded decision keeps the log within its bounds. A created specialist has
  // an id no earlier decision could have recorded.
  lemma LogGrows(log: seq<Decision>, d: Decision, before: Context, after: Context, maxPerMission: nat, maxSame: nat)
    requires maxSame >= 1 && Capped(log, maxPerMission) && Varied(log, maxSame) && Grounded(log, before)
        && Grows(before, after)
    requires d.action == PROCEED_TO_OPTIMIZATION ||
             (!LimitReached(log, maxPerMission)
              && (!RepeatGuard(log, Validated(d.action, d.target, None, None, false), maxSame)
                  || (d.action == CREATE_SPECIALIST && d.target.Some? && d.target.value !in before.agents)))
    requires d.target.Some? ==>
      if d.action == PRUNE_STRATEGY || d.action == REVIVE_STRATEGY then d.target.value in after.strategies
          else d.target.value in after.agents
    ensures Capped(log + [d], maxPerMission) && Varied(log + [d], maxSame) && Grounded(log + [d], after)
  {
    if d.action != PROCEED_TO_OPTIMIZATION && |log| >= maxSame && d.action == CREATE_SPECIALIST && d.target.Some?
        && d.target.value !in before.agents {
      assert !Matches(log[|log| - 1], d.action, d.target);
    }
    VariedGrows(log, d, maxSame);
  }

  // What is on record for an action: itself, and its target, which for a created
  // specialist is the new agent, and nobody when the factory refused.
  ghost predicate Recorded(d: Decision, v: Validated, before: Context, after: Context) {
    && d.action == v.action && d.rewritten == v.rewritten && d.proposed == v.proposed
    && (d.rejected ==> v.action == CREATE_SPECIALIST && d.target.None?)
    && (v.action == CREATE_SPECIALIST && !d.rejected ==>
        d.target.Some? && d.target.value !in before.agents && d.target.value in after.agents)
    && (v.action != CREATE_SPECIALIST ==> d.target == v.target)
  }

  // A decision that leaves the mission where it is: done in place, or a
  // specialist the factory refused.
  predicate Stays(d: Decision) {
    InPlace(d.action) || (d.rejected && d.action == CREATE_SPECIALIST)
  }

  // The log grew by such decisions only.
  ghost predicate StillDeciding(before: seq<Decision>, log: seq<Decision>) {
    && |before| <= |log| && log[..|before|] == before
    && forall k :: |before| <= k < |log| ==> Stays(log[k])
  }

  lemma RoundLogged(start: seq<Decision>, before: seq<Decision>, log: seq<Decision>)
    requires StillDeciding(start, before) && |log| == |before| + 1 && log[..|before|] == before
    ensures StillDeciding(start, log[..|log| - 1]) && log[..|start|] == start
    ensures Stays(log[|log| - 1]) ==> StillDeciding(start, log)
  {
    assert log[..|start|] == before[..|start|];
    assert forall k :: |start| <= k < |before| ==> log[k] == before[k];
  }

  // ---------------------------------------------------------------- when the log passes the limit

  // What one call of decide does to the log: some decisions that leave the
  // mission where it is, and one that moves it on.
  ghost predicate Round(before: seq<Decision>, log: seq<Decision>, maxPerMission: nat) {
    && Capped(log, maxPerMission)
    && |before| < |log| <= |before| + MAX_ROUNDS + 1 && log[..|before|] == before
    && StillDeciding(before, log[..|log| - 1]) && !Stays(log[|log| - 1])
  }

  // The limit was on record when the call began, or came on record during it
  // with the mission still to be moved on.
  ghost predicate FullTooSoon(before: seq<Decision>, log: seq<Decision>, maxPerMission: nat) {
    |before| >= maxPerMission || (|log| == maxPerMission + 1 && StillDeciding(before, log[..maxPerMission]))
  }

  // A call passes the limit exactly when the log is full too soon, and then by the
  // one decision that proceeds.
  ghost predicate PassesOnlyWhenFull(before: seq<Decision>, log: seq<Decision>, maxPerMission: nat) {
    && |log| <= (if |before| >= maxPerMission then |before| else maxPerMission) + 1
    && (|log| > maxPerMission <==> FullTooSoon(before, log, maxPerMission))
    && (|before| >= maxPerMission ==> |log| == |before| + 1)
  }

  // The documentation says the limit bounds the decisions of a mission. This is
  // what it does.
  lemma LimitPassedIff(before: seq<Decision>, log: seq<Decision>, maxPerMission: nat)
    requires Round(before, log, maxPerMission)
    ensures PassesOnlyWhenFull(before, log, maxPerMission)
    ensures |log| > maxPerMission ==> log[|log| - 1].action == PROCEED_TO_OPTIMIZATION
  {
    var n := |log| - 1;
    if |before| < n {
      assert Stays(log[..n][n - 1]);
      assert log[n - 1].action != PROCEED_TO_OPTIMIZATION;
    }
    assert n == maxPerMission ==> log[..n] == log[..maxPerMission];
  }

  lemma RoundEnds(start: seq<Decision>, before: seq<Decision>, log: seq<Decision>, maxPerMission: nat)
    requires StillDeciding(start, before) && |before| <= |start| + MAX_ROUNDS
    requires |log| == |before| + 1 && log[..|before|] == before
    requires Capped(log, maxPerMission) && !Stays(log[|log| - 1])
    ensures Round(start, log, maxPerMission)
    ensures PassesOnlyWhenFull(start, log, maxPerMission)
  {
    RoundLogged(start, before, log);
    LimitPassedIff(start, log, maxPerMission);
  }

  // The logs of a mission after each of its calls of decide, whatever else
  // happens between them.
  ghost predicate MissionLogs(logs: seq<seq<Decision>>, maxPerMission: nat) {
    && |logs| > 0 && logs[0] == []
    && forall i :: 0 < i < |logs| ==> Round(logs[i - 1], logs[i], maxPerMission)
  }

  lemma {:induction false} LogsGrow(logs: seq<seq<Decision>>, maxPerMission: nat, i: nat, j: nat)
    requires MissionLogs(logs, maxPerMission) && i <= j < |logs|
    ensures |logs[i]| + (j - i) <= |logs[j]|
    decreases j
  {
    if i < j {
      LogsGrow(logs, maxPerMission, i, j - 1);
      assert Round(logs[j - 1], logs[j], maxPerMission);
    }
  }

  // Over a whole mission: at most the limit and one decision for each call, and
  // no more than the limit exactly when no call found or made the log full too
  // soon.
  lemma {:induction false} MissionLogBounded(logs: seq<seq<Decision>>, maxPerMission: nat, n: nat)
    requires MissionLogs(logs, maxPerMission) && n < |logs|
    ensures |logs[n]| <= maxPerMission + n
    ensures |logs[n]| <= maxPerMission <==>
        forall i :: 0 < i <= n ==> !FullTooSoon(logs[i - 1], logs[i], maxPerMission)
    decreases n
  {
    if n > 0 {
      MissionLogBounded(logs, maxPerMission, n - 1);
      assert Round(logs[n - 1], logs[n], maxPerMission);
      LimitPassedIff(logs[n - 1], logs[n], maxPerMission);
      LogsGrow(logs, maxPerMission, n - 1, n);
      if |logs[n]| <= maxPerMission {
        assert |logs[n - 1]| <= maxPerMission;
      }
    }
  }

  class ReplanEngine {
    var status: MissionStatus
    var ctx: Context
    var hasSpec: bool
    var log: seq<Decision>
    var plans: map<Id, bool>        // plan options, and whether they are stale
    const maxPerMission: nat
    const maxSame: nat

    ghost predicate Valid()
      reads this
    {
      maxSame >= 1 && Capped(log, maxPerMission) && Varied(log, maxSame) && Grounded(log, ctx)
    }

    constructor (maxPerMission: nat, maxSame: nat, ctx: Context, hasSpec: bool, plans: map<Id, bool>)
      requires maxPerMission >= 1 && maxSame >= 1
      ensures Valid() && log == [] && status == REPLAN_DECISION_RUNNING
    {
      this.maxPerMission := maxPerMission;
      this.maxSame := maxSame;
      this.ctx := ctx;
      this.hasSpec := hasSpec;
      this.plans := plans;
      status := REPLAN_DECISION_RUNNING;
      log := [];
    }

    // Two attempts at a valid proposal, then PROCEED.
    method Propose(w: World) returns (v: Validated)
      ensures Sound(ctx, v)
      ensures v.action != PROCEED_TO_OPTIMIZATION ==>
        exists attempt :: 0 <= attempt < 2 && w.model(|log|, attempt).Some?
            && Validate(ctx, w.model(|log|, attempt).value, w.strip) == Ok(v)
    {
      var proposed: Option<Action> := None;
      for attempt := 0 to 2 {
        var answer := w.model(|log|, attempt);
        if answer.Some? {
          proposed := Some(answer.value.action);
          ValidateSound(ctx, answer.value, w.strip);
          var checked := Validate(ctx, answer.value, w.strip);
          if checked.Ok? {
            return checked.value;
          }
        }
      }
      v := Forced(proposed);
    }

    // The changes an action makes, short of PROCEED.
    method ExecuteChange(w: World, v: Validated, n: nat) returns (created: Result<Option<Id>, ReplanError>)
      requires status == REPLAN_DECISION_RUNNING && v.action != PROCEED_TO_OPTIMIZATION && Sound(ctx, v)
      requires w.factory(n).Some? ==> w.factory(n).value.0 !in ctx.agents
      modifies this`status, this`ctx
      ensures Grows(old(ctx), ctx)
      ensures created.Err? <==> v.action == CREATE_SPECIALIST && (!hasSpec || w.factory(n).None?)
      ensures created.Err? ==> status == old(status) && ctx == old(ctx)
      ensures created.Ok? ==> status == Destination(v.action)
      ensures created.Ok? && v.action == CREATE_SPECIALIST ==>
        && created.value == Some(w.factory(n).value.0)
            && ctx.agents.Keys == old(ctx).agents.Keys + {w.factory(n).value.0}
      ensures v.action != CREATE_SPECIALIST ==> created == Ok(None) && ctx.agents.Keys == old(ctx).agents.Keys
      ensures v.action == STOP_AGENT ==> ctx.agents[v.target.value].state == STOPPED
      ensures v.action == RERUN_AGENT ==> ctx.agents[v.target.value].state == READY
      ensures v.action == PRUNE_STRATEGY ==>
        && ctx.strategies == old(ctx).strategies[v.target.value := PRUNED]
        && ctx.agents == PrunedAgents(old(ctx).agents, v.target.value)
      ensures v.action == REVIVE_STRATEGY ==>
          ctx.strategies == old(ctx).strategies[v.target.value := ACTIVE] && ctx.agents == old(ctx).agents
    {
      created := Ok(None);
      match v.action
      case STOP_AGENT =>
        ctx := ctx.(agents := ctx.agents[v.target.value := ctx.agents[v.target.value].(state := STOPPED)]);
      case PRUNE_STRATEGY =>
        ctx := ctx.(strategies := ctx.strategies[v.target.value := PRUNED],
            agents := PrunedAgents(ctx.agents, v.target.value));
      case REVIVE_STRATEGY =>
        ctx := ctx.(strategies := ctx.strategies[v.target.value := ACTIVE]);
      case RERUN_AGENT =>
        ctx := ctx.(agents := ctx.agents[v.target.value := ctx.agents[v.target.value].(state := READY)]);
        status := TargetState(v.action);
      case CREATE_SPECIALIST =>
        if !hasSpec || w.factory(n).None? {
          return Err(ProposalInvalid);
        }
        var (id, strategy) := w.factory(n).value;
        ctx := ctx.(agents := ctx.agents[id := Agent(CREATED, if strategy.Some? then strategy else v.strategy)]);
        status := TargetState(v.action);
        assert IsAllowed(status, SWARM_READY);
        status := SWARM_READY;
        created := Ok(Some(id));
      case RESEARCH_PASS =>
        status := TargetState(v.action);
      case CALL_ROUND =>
        status := TargetState(v.action);
      case PROCEED_TO_OPTIMIZATION =>
        assert false;
    }

    // Moves the mission or makes the change; an applied change makes every plan
    // option stale.
    method Execute(w: World, v: Validated, n: nat) returns (created: Result<Option<Id>, ReplanError>)
      requires status == REPLAN_DECISION_RUNNING && Sound(ctx, v)
      requires w.factory(n).Some? ==> w.factory(n).value.0 !in ctx.agents
      modifies this`status, this`ctx, this`plans
      ensures Grows(old(ctx), ctx)
      ensures created.Err? ==> v.action == CREATE_SPECIALIST && status == REPLAN_DECISION_RUNNING && ctx == old(ctx)
      ensures created.Ok? ==> status == Destination(v.action)
      ensures created.Ok? ==> (created.value.Some? <==> v.action == CREATE_SPECIALIST)
      ensures created.Ok? && created.value.Some? ==>
        && w.factory(n).Some? && created.value.value == w.factory(n).value.0
        && ctx.agents.Keys == old(ctx).agents.Keys + {w.factory(n).value.0}
      ensures created.Err? || created.value.None? ==> ctx.agents.Keys == old(ctx).agents.Keys
      ensures v.action != PROCEED_TO_OPTIMIZATION && created.Ok? ==> forall p :: p in plans ==> plans[p]
      ensures v.action == PROCEED_TO_OPTIMIZATION || created.Err? ==> plans == old(plans)
    {
      if v.action == PROCEED_TO_OPTIMIZATION {
        status := TargetState(v.action);
        return Ok(None);
      }
      created := ExecuteChange(w, v, n);
      if created.Ok? {
        plans := map p | p in plans :: true;
      }
    }

    // Records the decision, executes it, and records the outcome.
    method Apply(w: World, v: Validated) returns (transitioned: bool)
      requires Valid() && status == REPLAN_DECISION_RUNNING && Sound(ctx, v) && NewIdsFrom(w, ctx, |log|)
      requires v.action == PROCEED_TO_OPTIMIZATION || (!LimitReached(log, maxPerMission)
          && !RepeatGuard(log, v, maxSame))
      modifies this`status, this`ctx, this`log, this`plans
      ensures Valid() && Grows(old(ctx), ctx) && NewIdsFrom(w, ctx, |log|)
      ensures |log| == |old(log)| + 1 && log[..|old(log)|] == old(log)
      ensures Recorded(log[|old(log)|], v, old(ctx), ctx)
      ensures transitioned <==> !InPlace(v.action) && !log[|old(log)|].rejected
      ensures status == if transitioned then Destination(v.action) else REPLAN_DECISION_RUNNING
      ensures v.action != PROCEED_TO_OPTIMIZATION && !log[|old(log)|].rejected ==> forall p :: p in plans ==> plans[p]
      ensures v.action == PROCEED_TO_OPTIMIZATION || log[|old(log)|].rejected ==> plans == old(plans)
    {
      var n := |log|;
      ghost var before := log;
      var d := Decision(v.action, v.target, v.proposed, v.rewritten, false);
      log := log + [d];
      var created := Execute(w, v, n);
      transitioned := !InPlace(v.action) && created.Ok?;
      if created.Err? {
        d := d.(rejected := true);
      } else if created.value.Some? {
        d := d.(target := created.value);
      }
      log := log[n := d];
      assert log == before + [d];
      LogGrows(before, d, old(ctx), ctx, maxPerMission, maxSame);
    }

    // The next decision: what the model proposes, unless a loop guard forces PROCEED.
    method Choose(w: World) returns (v: Validated)
      ensures Sound(ctx, v)
      ensures v.action == PROCEED_TO_OPTIMIZATION || (!LimitReached(log, maxPerMission)
          && !RepeatGuard(log, v, maxSame))
    {
      if LimitReached(log, maxPerMission) {
        return Forced(None);
      }
      v := Propose(w);
      if RepeatGuard(log, v, maxSame) {
        v := Forced(Some(v.action));
      }
    }

    // Up to MAX_ROUNDS decisions, until one moves the mission on.
    method TryInPlace(w: World) returns (moved: bool)
      requires Valid() && NewIdsFrom(w, ctx, |log|) && status == REPLAN_DECISION_RUNNING
      modifies this`status, this`ctx, this`log, this`plans
      ensures Valid() && Grows(old(ctx), ctx) && NewIdsFrom(w, ctx, |log|)
      ensures moved ==>
        && Round(old(log), log, maxPerMission) && PassesOnlyWhenFull(old(log), log, maxPerMission)
        && |log| <= |old(log)| + MAX_ROUNDS
        && !InPlace(log[|log| - 1].action) && !log[|log| - 1].rejected
        && status == Destination(log[|log| - 1].action)
        && (log[|log| - 1].action == CALL_ROUND ==> CanCall(old(ctx)))
      ensures !moved ==>
        && status == REPLAN_DECISION_RUNNING
        && |log| == |old(log)| + MAX_ROUNDS && StillDeciding(old(log), log)
    {
      for round := 0 to MAX_ROUNDS
        invariant Valid() && Grows(old(ctx), ctx) && NewIdsFrom(w, ctx, |log|) && status == REPLAN_DECISION_RUNNING
        invariant |log| == |old(log)| + round && StillDeciding(old(log), log)
      {
        var v := Choose(w);
        ghost var before := log;
        moved := Apply(w, v);
        RoundLogged(old(log), before, log);
        if moved {
          RoundEnds(old(log), before, log, maxPerMission);
          return true;
        }
      }
      moved := false;
    }

    method Decide(w: World) returns (r: Result<Decision, ReplanError>)
      requires Valid() && NewIdsFrom(w, ctx, |log|)
      modifies this`status, this`ctx, this`log, this`plans
      ensures Valid() && Grows(old(ctx), ctx) && NewIdsFrom(w, ctx, |log|)
      ensures r.Err? <==> old(status) != REPLAN_DECISION_RUNNING
      ensures r.Err? ==>
          r.error == NotReady && status == old(status) && ctx == old(ctx) && log == old(log) && plans == old(plans)
      ensures r.Ok? ==>
        && Round(old(log), log, maxPerMission)
        && r.value == log[|log| - 1] && !InPlace(r.value.action) && !r.value.rejected
        && status == Destination(r.value.action) && status != REPLAN_DECISION_RUNNING
        && (|log| == |old(log)| + MAX_ROUNDS + 1 ==> r.value.action == PROCEED_TO_OPTIMIZATION)
      ensures r.Ok? ==> PassesOnlyWhenFull(old(log), log, maxPerMission)
      ensures r.Ok? && r.value.action == CALL_ROUND ==> CanCall(old(ctx))
    {
      if status != REPLAN_DECISION_RUNNING {
        return Err(NotReady);
      }
      var moved := TryInPlace(w);
      if moved {
        return Ok(log[|log| - 1]);
      }
      ghost var before := log;
      var last := Apply(w, Forced(None));
      RoundEnds(old(log), before, log, maxPerMission);
      r := Ok(log[|log| - 1]);
    }
  }

  // ---------------------------------------------------------------- a mission that comes back

  const CALLS_BACK := [CALL_SELECTION_RUNNING, CALL_PLAN_READY, REPLAN_DECISION_RUNNING]
  const RESEARCH_BACK := [RESEARCH_RUNNING, RESEARCH_REVIEW_RUNNING, INFORMATION_GAPS_READY] + CALLS_BACK
  const REVIEW_BACK := [OPTIMIZATION_RUNNING, REVIEW_RUNNING, REVIEW_FAILED, REPLAN_DECISION_RUNNING]

  // From where a decision sends a mission to its next decision.
  function WayBack(action: Action): seq<MissionStatus> {
    match action
    case CALL_ROUND => CALLS_BACK
    case CREATE_SPECIALIST => [SWARM_READY] + RESEARCH_BACK
    case RERUN_AGENT => RESEARCH_BACK
    case RESEARCH_PASS => RESEARCH_BACK
    case _ => REVIEW_BACK
  }

  // Wherever a decision sends a mission, it can come back for another one.
  lemma ComesBack(action: Action)
    requires !InPlace(action)
    ensures var way := WayBack(action);
      && way[0] == Destination(action) && way[|way| - 1] == REPLAN_DECISION_RUNNING
      && forall i :: 0 < i < |way| ==> IsAllowed(way[i - 1], way[i])
  {
  }

  // Whatever is proposed, a mission that keeps coming back gets to exactly one
  // decision more than its limit.
  method PassLimit(engine: ReplanEngine, w: World)
    requires engine.Valid() && engine.status == REPLAN_DECISION_RUNNING && NewIdsFrom(w, engine.ctx, |engine.log|)
    requires |engine.log| <= engine.maxPerMission
    modifies engine`status, engine`ctx, engine`log, engine`plans
    ensures |engine.log| == engine.maxPerMission + 1
  {
    while |engine.log| <= engine.maxPerMission
      invariant engine.Valid() && NewIdsFrom(w, engine.ctx, |engine.log|)
      invariant engine.status == REPLAN_DECISION_RUNNING && |engine.log| <= engine.maxPerMission + 1
      decreases engine.maxPerMission + 1 - |engine.log|
    {
      var r := engine.Decide(w);
      ComesBack(r.value.action);
      engine.status := REPLAN_DECISION_RUNNING;
    }
  }
}
