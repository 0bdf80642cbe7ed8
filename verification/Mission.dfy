// The mission state machine, and the approvals that lead a mission to call.
module Mission {
  import opened Models

  datatype MissionStatus =
    | MISSION_CREATED | GOAL_UNDERSTANDING | CLARIFICATION_REQUIRED | CLARIFICATION_COMPLETE | MISSION_SPEC_READY
    | STRATEGY_DISCOVERY_RUNNING | STRATEGY_SET_READY | SWARM_DESIGN_RUNNING | SWARM_READY
    | RESEARCH_RUNNING | RESEARCH_REVIEW_RUNNING | INFORMATION_GAPS_READY
    | CALL_SELECTION_RUNNING | CALL_PLAN_READY | CALL_AUTHORIZATION_PENDING | CALL_AUTHORIZED
    | CALL_EXECUTION_RUNNING | CALL_RESULT_RECEIVED | EVIDENCE_UPDATE_RUNNING
    | REPLAN_DECISION_RUNNING | NEGOTIATION_OR_FOLLOWUP_RUNNING
    | OPTIMIZATION_RUNNING | REVIEW_RUNNING | REVIEW_FAILED | REVIEW_PASSED
    | PLAN_OPTIONS_READY | USER_DECISION_PENDING | MISSION_REVISION_RUNNING
    | COMPLETE | BLOCKED | CANCELED

  predicate Terminal(st: MissionStatus) {
    st == MissionStatus.COMPLETE || st == MissionStatus.BLOCKED || st == CANCELED
  }

  // The table, without the aborts.
  predicate Forward(from: MissionStatus, to: MissionStatus) {
    match from
    case MISSION_CREATED => to == GOAL_UNDERSTANDING
    case GOAL_UNDERSTANDING => to == CLARIFICATION_REQUIRED || to == MISSION_SPEC_READY
    case CLARIFICATION_REQUIRED => to == CLARIFICATION_COMPLETE
    case CLARIFICATION_COMPLETE => to == MISSION_SPEC_READY
    case MISSION_SPEC_READY => to == STRATEGY_DISCOVERY_RUNNING
    case STRATEGY_DISCOVERY_RUNNING => to == STRATEGY_SET_READY
    case STRATEGY_SET_READY => to == SWARM_DESIGN_RUNNING
    case SWARM_DESIGN_RUNNING => to == SWARM_READY
    case SWARM_READY => to == RESEARCH_RUNNING
    case RESEARCH_RUNNING => to == RESEARCH_REVIEW_RUNNING
    case RESEARCH_REVIEW_RUNNING => to == INFORMATION_GAPS_READY
    case INFORMATION_GAPS_READY => to == CALL_SELECTION_RUNNING
    case CALL_SELECTION_RUNNING => to == CALL_PLAN_READY
    case CALL_PLAN_READY => to == CALL_AUTHORIZATION_PENDING || to == REPLAN_DECISION_RUNNING
    case CALL_AUTHORIZATION_PENDING => to == CALL_AUTHORIZED || to == REPLAN_DECISION_RUNNING
    case CALL_AUTHORIZED => to == CALL_EXECUTION_RUNNING
    case CALL_EXECUTION_RUNNING => to == CALL_RESULT_RECEIVED
    case CALL_RESULT_RECEIVED => to == EVIDENCE_UPDATE_RUNNING
    case EVIDENCE_UPDATE_RUNNING => to == REPLAN_DECISION_RUNNING
    case REPLAN_DECISION_RUNNING =>
      to == NEGOTIATION_OR_FOLLOWUP_RUNNING || to == OPTIMIZATION_RUNNING || to == RESEARCH_RUNNING
      || to == SWARM_DESIGN_RUNNING || to == CALL_SELECTION_RUNNING
    case NEGOTIATION_OR_FOLLOWUP_RUNNING => to == CALL_SELECTION_RUNNING
    case OPTIMIZATION_RUNNING => to == REVIEW_RUNNING
    case REVIEW_RUNNING => to == REVIEW_FAILED || to == REVIEW_PASSED
    case REVIEW_FAILED => to == REPLAN_DECISION_RUNNING
    case REVIEW_PASSED => to == PLAN_OPTIONS_READY
    case PLAN_OPTIONS_READY => to == USER_DECISION_PENDING || to == MISSION_REVISION_RUNNING
        || to == MissionStatus.COMPLETE
    case USER_DECISION_PENDING => to == MISSION_REVISION_RUNNING || to == MissionStatus.COMPLETE
    case MISSION_REVISION_RUNNING =>
      to == MISSION_SPEC_READY || to == STRATEGY_DISCOVERY_RUNNING || to == SWARM_DESIGN_RUNNING
          || to == RESEARCH_RUNNING
      || to == CALL_SELECTION_RUNNING || to == REPLAN_DECISION_RUNNING || to == OPTIMIZATION_RUNNING
    case _ => false
  }

  predicate IsAllowed(from: MissionStatus, to: MissionStatus) {
    Forward(from, to) || (!Terminal(from) && (to == MissionStatus.BLOCKED || to == CANCELED))
  }

  // ---------------------------------------------------------------- the table

  datatype Transition = Transition(from: MissionStatus, to: MissionStatus)

  // A history the state machine can have recorded.
  ghost predicate Path(history: seq<Transition>, start: MissionStatus, last: MissionStatus) {
    if history == [] then start == last
    else
      var t := history[|history| - 1];
      t.to == last && IsAllowed(t.from, t.to) && Path(history[..|history| - 1], start, t.from)
  }

  lemma {:induction false} PathAt(history: seq<Transition>, start: MissionStatus, last: MissionStatus, k: nat)
    requires Path(history, start, last) && k < |history|
    ensures Path(history[..k], start, history[k].from) && IsAllowed(history[k].from, history[k].to)
    ensures k > 0 ==> history[k - 1].to == history[k].from
    decreases |history|
  {
    var n := |history| - 1;
    if k < n {
      PathAt(history[..n], start, history[n].from, k);
      assert history[..n][..k] == history[..k];
    } else if k > 0 {
      assert history[..n][k - 1] == history[k - 1];
    }
  }

  // A transition out of anything but the first status has one before it.
  lemma EnteredBefore(history: seq<Transition>, last: MissionStatus, k: nat)
    requires Path(history, MISSION_CREATED, last) && k < |history| && history[k].from != MISSION_CREATED
    ensures k > 0 && history[k - 1].to == history[k].from && IsAllowed(history[k - 1].from, history[k - 1].to)
  {
    PathAt(history, MISSION_CREATED, last, k);
    if k > 0 {
      PathAt(history, MISSION_CREATED, last, k - 1);
    }
  }

  lemma OnlyWayIn(from: MissionStatus, to: MissionStatus)
    requires IsAllowed(from, to)
    ensures to == CALL_EXECUTION_RUNNING ==> from == CALL_AUTHORIZED
    ensures to == CALL_AUTHORIZED ==> from == CALL_AUTHORIZATION_PENDING
    ensures to == CALL_AUTHORIZATION_PENDING ==> from == CALL_PLAN_READY
  {
  }

  // There is one way into execution: every entry is immediately preceded by its
  // own authorization, itself reached from a call plan.
  lemma ExecutionIsAuthorized(history: seq<Transition>, last: MissionStatus, k: nat)
    requires Path(history, MISSION_CREATED, last) && k < |history| && history[k].to == CALL_EXECUTION_RUNNING
    ensures k >= 3 && history[k - 1] == Transition(CALL_AUTHORIZATION_PENDING, CALL_AUTHORIZED)
    ensures history[k - 2] == Transition(CALL_PLAN_READY, CALL_AUTHORIZATION_PENDING)
  {
    PathAt(history, MISSION_CREATED, last, k);
    OnlyWayIn(history[k].from, history[k].to);
    EnteredBefore(history, last, k);
    OnlyWayIn(history[k - 1].from, history[k - 1].to);
    EnteredBefore(history, last, k - 1);
    OnlyWayIn(history[k - 2].from, history[k - 2].to);
    EnteredBefore(history, last, k - 2);
  }

  // How many transitions a status is away from COMPLETE.
  function Distance(st: MissionStatus): nat {
    match st
    case COMPLETE => 0
    case PLAN_OPTIONS_READY => 1
    case USER_DECISION_PENDING => 1
    case REVIEW_PASSED => 2
    case REVIEW_RUNNING => 3
    case OPTIMIZATION_RUNNING => 4
    case REPLAN_DECISION_RUNNING => 5
    case MISSION_REVISION_RUNNING => 5
    case REVIEW_FAILED => 6
    case EVIDENCE_UPDATE_RUNNING => 6
    case CALL_AUTHORIZATION_PENDING => 6
    case CALL_PLAN_READY => 6
    case CALL_RESULT_RECEIVED => 7
    case CALL_SELECTION_RUNNING => 7
    case CALL_EXECUTION_RUNNING => 8
    case NEGOTIATION_OR_FOLLOWUP_RUNNING => 8
    case INFORMATION_GAPS_READY => 8
    case CALL_AUTHORIZED => 9
    case RESEARCH_REVIEW_RUNNING => 9
    case RESEARCH_RUNNING => 10
    case SWARM_READY => 11
    case SWARM_DESIGN_RUNNING => 12
    case STRATEGY_SET_READY => 13
    case STRATEGY_DISCOVERY_RUNNING => 14
    case MISSION_SPEC_READY => 15
    case GOAL_UNDERSTANDING => 16
    case CLARIFICATION_COMPLETE => 16
    case CLARIFICATION_REQUIRED => 17
    case MISSION_CREATED => 17
    case BLOCKED => 0
    case CANCELED => 0
  }

  // A status one step closer to COMPLETE.
  function Closer(st: MissionStatus): MissionStatus {
    match st
    case MISSION_CREATED => GOAL_UNDERSTANDING
    case GOAL_UNDERSTANDING => MISSION_SPEC_READY
    case CLARIFICATION_REQUIRED => CLARIFICATION_COMPLETE
    case CLARIFICATION_COMPLETE => MISSION_SPEC_READY
    case MISSION_SPEC_READY => STRATEGY_DISCOVERY_RUNNING
    case STRATEGY_DISCOVERY_RUNNING => STRATEGY_SET_READY
    case STRATEGY_SET_READY => SWARM_DESIGN_RUNNING
    case SWARM_DESIGN_RUNNING => SWARM_READY
    case SWARM_READY => RESEARCH_RUNNING
    case RESEARCH_RUNNING => RESEARCH_REVIEW_RUNNING
    case RESEARCH_REVIEW_RUNNING => INFORMATION_GAPS_READY
    case INFORMATION_GAPS_READY => CALL_SELECTION_RUNNING
    case CALL_SELECTION_RUNNING => CALL_PLAN_READY
    case CALL_PLAN_READY => REPLAN_DECISION_RUNNING
    case CALL_AUTHORIZATION_PENDING => REPLAN_DECISION_RUNNING
    case CALL_AUTHORIZED => CALL_EXECUTION_RUNNING
    case CALL_EXECUTION_RUNNING => CALL_RESULT_RECEIVED
    case CALL_RESULT_RECEIVED => EVIDENCE_UPDATE_RUNNING
    case EVIDENCE_UPDATE_RUNNING => REPLAN_DECISION_RUNNING
    case REPLAN_DECISION_RUNNING => OPTIMIZATION_RUNNING
    case NEGOTIATION_OR_FOLLOWUP_RUNNING => CALL_SELECTION_RUNNING
    case OPTIMIZATION_RUNNING => REVIEW_RUNNING
    case REVIEW_RUNNING => REVIEW_PASSED
    case REVIEW_FAILED => REPLAN_DECISION_RUNNING
    case REVIEW_PASSED => PLAN_OPTIONS_READY
    case MISSION_REVISION_RUNNING => OPTIMIZATION_RUNNING
    case _ => MissionStatus.COMPLETE
  }

  lemma CloserIsForward(st: MissionStatus)
    requires !Terminal(st)
    ensures Forward(st, Closer(st)) && Distance(st) == Distance(Closer(st)) + 1
    ensures Closer(st) != MissionStatus.BLOCKED && Closer(st) != CANCELED
  {
  }

  lemma DistanceBound(st: MissionStatus)
    ensures Distance(st) <= 17 && (Distance(st) == 0 ==> Terminal(st))
  {
  }

  lemma {:induction false} PathJoin(a: seq<Transition>, b: seq<Transition>, start: MissionStatus, mid: MissionStatus,
      last: MissionStatus)
    requires Path(a, start, mid) && Path(b, mid, last)
    ensures Path(a + b, start, last)
    decreases |b|
  {
    if b == [] {
      assert a + b == a;
    } else {
      var n := |b| - 1;
      PathJoin(a, b[..n], start, mid, b[n].from);
      assert (a + b)[..|a + b| - 1] == a + b[..n];
    }
  }

  lemma OneStepPath(from: MissionStatus, to: MissionStatus)
    requires IsAllowed(from, to)
    ensures Path([Transition(from, to)], from, to)
  {
    assert [Transition(from, to)][..0] == [];
  }

  lemma OneTransitionCloser(from: MissionStatus, to: MissionStatus)
    requires Forward(from, to)
    ensures Distance(from) <= Distance(to) + 1
  {
    match from
    case REPLAN_DECISION_RUNNING =>
    case MISSION_REVISION_RUNNING =>
    case _ =>
  }

  // No path is shorter.
  lemma {:induction false} DistanceIsLeast(path: seq<Transition>, st: MissionStatus, last: MissionStatus)
    requires Path(path, st, last) && last != MissionStatus.BLOCKED && last != CANCELED
    ensures Distance(st) <= |path| + Distance(last)
    decreases |path|
  {
    if path != [] {
      var t := path[|path| - 1];
      assert !Terminal(t.from);
      DistanceIsLeast(path[..|path| - 1], st, t.from);
      OneTransitionCloser(t.from, t.to);
    }
  }

  lemma PrependCloser(st: MissionStatus, rest: seq<Transition>)
    requires !Terminal(st) && Path(rest, Closer(st), MissionStatus.COMPLETE)
    ensures Path([Transition(st, Closer(st))] + rest, st, MissionStatus.COMPLETE)
  {
    CloserIsForward(st);
    OneStepPath(st, Closer(st));
    PathJoin([Transition(st, Closer(st))], rest, st, Closer(st), MissionStatus.COMPLETE);
  }

  lemma {:induction false} CompletingPath(st: MissionStatus) returns (path: seq<Transition>)
    requires st != MissionStatus.BLOCKED && st != CANCELED
    ensures |path| == Distance(st) && Path(path, st, MissionStatus.COMPLETE)
    decreases Distance(st)
  {
    if st == MissionStatus.COMPLETE {
      path := [];
    } else {
      CloserIsForward(st);
      var rest := CompletingPath(Closer(st));
      PrependCloser(st, rest);
      path := [Transition(st, Closer(st))] + rest;
    }
  }

  // No live mission is a dead end: COMPLETE is always reachable, within 17
  // transitions, and no way there is shorter than Distance says.
  lemma AlwaysCompletable(st: MissionStatus)
    requires st != MissionStatus.BLOCKED && st != CANCELED
    ensures exists path :: |path| == Distance(st) && Path(path, st, MissionStatus.COMPLETE)
    ensures forall path :: Path(path, st, MissionStatus.COMPLETE) ==> Distance(st) <= |path|
    ensures Distance(st) <= 17
  {
    var shortest := CompletingPath(st);
    DistanceBound(st);
    forall path | Path(path, st, MissionStatus.COMPLETE)
      ensures Distance(st) <= |path|
    {
      DistanceIsLeast(path, st, MissionStatus.COMPLETE);
    }
  }

  // ---------------------------------------------------------------- approvals of one mission

  datatype ApprovalStatus = PENDING | APPROVED | REJECTED | EXPIRED

  datatype Approval = Approval(status: ApprovalStatus, requestedAt: int, expiresAt: Option<int>, decidedAt: Option<int>)

  predicate PastExpiry(a: Approval, now: int) {
    a.expiresAt.Some? && a.expiresAt.value <= now
  }

  // The mission row and its approvals, with the operations that are under way:
  // requests that have stored their approval but not moved the mission yet, and
  // _advance_mission calls about to read the mission, about to read the
  // approvals, and about to propose what they concluded.
  datatype State = State(
    status: MissionStatus,
    history: seq<Transition>,
    approvals: map<Id, Approval>,
    requesting: set<Id>,
    advancing: nat,
    reading: nat,
    verdicts: multiset<MissionStatus>)

  function Initial(): State {
    State(MISSION_CREATED, [], map[], {}, 0, 0, multiset{})
  }

  // One step is one transaction. Anybody else may propose any status except the
  // two that only the approval service proposes.
  datatype Step =
    | RequestInsert(a: Id, now: int, expiresAt: int)
    | RequestMove(a: Id)
    | Decide(a: Id, approve: bool, now: int)
    | ExpireStale(now: int)
    | Derive(a: Id, parent: Id, now: int, covered: bool)
    | AdvanceStart
    | AdvanceRead
    | AdvanceMove(to: MissionStatus)
    | Propose(to: MissionStatus)

  predicate Enabled(s: State, step: Step) {
    match step
    case RequestInsert(a, _, _) => a !in s.approvals
    case RequestMove(a) => a in s.requesting
    case Decide(a, _, _) => true
    case ExpireStale(_) => true
    case Derive(a, parent, _, _) => a !in s.approvals && parent in s.approvals
    case AdvanceStart => s.advancing > 0
    case AdvanceRead => s.reading > 0
    case AdvanceMove(to) => to in s.verdicts && (to == CALL_AUTHORIZED || to == REPLAN_DECISION_RUNNING)
    case Propose(to) => to != CALL_AUTHORIZATION_PENDING && to != CALL_AUTHORIZED
  }

  // propose_transition: checked against the stored status, recorded, or refused.
  function ProposeTransition(s: State, to: MissionStatus): State {
    if IsAllowed(s.status, to) then s.(status := to, history := s.history + [Transition(s.status, to)]) else s
  }

  predicate Decidable(s: State, a: Id, now: int) {
    a in s.approvals && s.approvals[a].status == PENDING && !PastExpiry(s.approvals[a], now)
  }

  predicate Stale(a: Approval, now: int) {
    a.status == PENDING && PastExpiry(a, now)
  }

  function Expired(approvals: map<Id, Approval>, now: int): map<Id, Approval> {
    map a | a in approvals :: if Stale(approvals[a], now) then approvals[a].(status := EXPIRED) else approvals[a]
  }

  predicate AnyStale(s: State, now: int) {
    exists a :: a in s.approvals && Stale(s.approvals[a], now)
  }

  predicate AnyWith(s: State, st: ApprovalStatus) {
    exists a :: a in s.approvals && s.approvals[a].status == st
  }

  function Verdict(s: State): multiset<MissionStatus> {
    if AnyWith(s, APPROVED) then multiset{CALL_AUTHORIZED}
    else if AnyWith(s, PENDING) then multiset{}
    else multiset{REPLAN_DECISION_RUNNING}
  }

  function After(s: State, step: Step): State
    requires Enabled(s, step)
  {
    match step
    case RequestInsert(a, now, expiresAt) =>
      s.(approvals := s.approvals[a := Approval(PENDING, now, Some(expiresAt), None)], requesting := s.requesting + {a})
    case RequestMove(a) =>
      var r := s.(requesting := s.requesting - {a});
      if s.status == CALL_PLAN_READY then ProposeTransition(r, CALL_AUTHORIZATION_PENDING) else r
    case Decide(a, approve, now) =>
      // Too late, or already decided: the error rolls the session back.
      if Decidable(s, a, now) then
        s.(approvals := s.approvals[a := s.approvals[a].(status := if approve then APPROVED
            else REJECTED, decidedAt := Some(now))],
           advancing := s.advancing + 1)
      else s
    case ExpireStale(now) =>
      s.(approvals := Expired(s.approvals, now), advancing := if AnyStale(s, now) then s.advancing + 1 else s.advancing)
    case Derive(a, parent, now, covered) =>
      var p := s.approvals[parent];
      if p.status == APPROVED && !PastExpiry(p, now) && covered then s.(approvals := s.approvals[a := p]) else s
    case AdvanceStart =>
      s.(advancing := s.advancing - 1, reading := if s.status == CALL_AUTHORIZATION_PENDING then s.reading + 1
          else s.reading)
    case AdvanceRead =>
      s.(reading := s.reading - 1, verdicts := s.verdicts + Verdict(s))
    case AdvanceMove(to) =>
      ProposeTransition(s.(verdicts := s.verdicts - multiset{to}), to)
    case Propose(to) =>
      ProposeTransition(s, to)
  }

  function Do(s: State, step: Step): State {
    if Enabled(s, step) then After(s, step) else s
  }

  function Exec(steps: seq<Step>): State {
    if steps == [] then Initial() else Do(Exec(steps[..|steps| - 1]), steps[|steps| - 1])
  }

  // ---------------------------------------------------------------- every run

  lemma ProposePath(s: State, to: MissionStatus)
    requires Path(s.history, MISSION_CREATED, s.status)
    ensures Path(ProposeTransition(s, to).history, MISSION_CREATED, ProposeTransition(s, to).status)
  {
    var next := Transition(s.status, to);
    assert (s.history + [next])[..|s.history|] == s.history;
  }

  lemma StepPath(s: State, step: Step)
    requires Path(s.history, MISSION_CREATED, s.status) && Enabled(s, step)
    ensures Path(After(s, step).history, MISSION_CREATED, After(s, step).status)
  {
    match step
    case RequestMove(a) => ProposePath(s.(requesting := s.requesting - {a}), CALL_AUTHORIZATION_PENDING);
    case AdvanceMove(to) => ProposePath(s.(verdicts := s.verdicts - multiset{to}), to);
    case Propose(to) => ProposePath(s, to);
    case _ =>
  }

  lemma {:induction false} HistoryIsPath(steps: seq<Step>)
    ensures Path(Exec(steps).history, MISSION_CREATED, Exec(steps).status)
  {
    if steps != [] {
      HistoryIsPath(steps[..|steps| - 1]);
      if Enabled(Exec(steps[..|steps| - 1]), steps[|steps| - 1]) {
        StepPath(Exec(steps[..|steps| - 1]), steps[|steps| - 1]);
      }
    }
  }

  // Whatever the components do and however they interleave, a mission executes
  // calls only right after an authorization of its own.
  lemma EveryExecutionAuthorized(steps: seq<Step>, k: nat)
    requires k < |Exec(steps).history| && Exec(steps).history[k].to == CALL_EXECUTION_RUNNING
    ensures k >= 3 && Exec(steps).history[k - 1] == Transition(CALL_AUTHORIZATION_PENDING, CALL_AUTHORIZED)
    ensures Exec(steps).history[k - 2] == Transition(CALL_PLAN_READY, CALL_AUTHORIZATION_PENDING)
  {
    HistoryIsPath(steps);
    ExecutionIsAuthorized(Exec(steps).history, Exec(steps).status, k);
  }

  // An approval that was decided in time, or copied from one that was.
  predicate DecidedInTime(a: Approval) {
    a.decidedAt.Some? && !PastExpiry(a, a.decidedAt.value)
  }

  ghost predicate HasAuthorized(s: State) {
    s.status == CALL_AUTHORIZED || CALL_AUTHORIZED in s.verdicts
        || Transition(CALL_AUTHORIZATION_PENDING, CALL_AUTHORIZED) in s.history
  }

  ghost predicate ApprovalsOk(s: State) {
    && (forall a :: a in s.approvals && s.approvals[a].status == APPROVED ==> DecidedInTime(s.approvals[a]))
    && (HasAuthorized(s) ==> AnyWith(s, APPROVED))
  }

  lemma ApprovedStays(s: State, step: Step)
    requires Enabled(s, step) && AnyWith(s, APPROVED)
    ensures AnyWith(After(s, step), APPROVED)
  {
    var a :| a in s.approvals && s.approvals[a].status == APPROVED;
    var r := After(s, step);
    assert a in r.approvals && r.approvals[a] == s.approvals[a];
  }

  lemma AuthorizedFrom(s: State, step: Step)
    requires Enabled(s, step) && HasAuthorized(After(s, step)) && !HasAuthorized(s)
    ensures AnyWith(s, APPROVED)
  {
  }

  lemma StepApprovals(s: State, step: Step)
    requires ApprovalsOk(s) && Enabled(s, step)
    ensures ApprovalsOk(After(s, step))
  {
    var r := After(s, step);
    if HasAuthorized(r) {
      if !HasAuthorized(s) {
        AuthorizedFrom(s, step);
      }
      ApprovedStays(s, step);
    }
  }

  lemma {:induction false} ExecApprovals(steps: seq<Step>)
    ensures ApprovalsOk(Exec(steps))
  {
    if steps != [] {
      ExecApprovals(steps[..|steps| - 1]);
      if Enabled(Exec(steps[..|steps| - 1]), steps[|steps| - 1]) {
        StepApprovals(Exec(steps[..|steps| - 1]), steps[|steps| - 1]);
      }
    }
  }

  predicate Approves(s: State, a: Id) {
    a in s.approvals && s.approvals[a].status == APPROVED
  }

  // An approving decision on a pending, unexpired approval.
  predicate ApprovingDecision(s: State, step: Step) {
    step.Decide? && step.approve && Decidable(s, step.a, step.now)
  }

  // A cascade step that takes over an approved, unexpired approval covering it.
  predicate CopiesApproval(s: State, step: Step) {
    && step.Derive? && step.covered && step.a !in s.approvals
    && Approves(s, step.parent) && !PastExpiry(s.approvals[step.parent], step.now)
  }

  // The documentation says a decision is the only way an approval becomes
  // APPROVED. It becomes so by a decision on it, or as such a copy, and in no
  // other way.
  lemma BecomesApprovedIff(s: State, step: Step, a: Id)
    requires Enabled(s, step) && !Approves(s, a)
    ensures Approves(After(s, step), a) <==>
        (ApprovingDecision(s, step) && step.a == a) || (CopiesApproval(s, step) && step.a == a)
  {
  }

  // An approval, once APPROVED, stays as it is.
  lemma ApprovedIsFinal(s: State, step: Step, a: Id)
    requires Enabled(s, step) && Approves(s, a)
    ensures Approves(After(s, step), a) && After(s, step).approvals[a] == s.approvals[a]
  {
  }

  // The step of a run at which p was decided: approved by somebody, while it was
  // pending and not past the expiry it still has.
  predicate DecidedAt(steps: seq<Step>, k: nat, p: Approval)
    requires k < |steps|
  {
    var s := Exec(steps[..k]);
    && ApprovingDecision(s, steps[k])
    && p.decidedAt == Some(steps[k].now) && p.expiresAt == s.approvals[steps[k].a].expiresAt
  }

  lemma DecisionStamps(s: State, step: Step)
    requires Enabled(s, step) && ApprovingDecision(s, step)
    ensures var p := After(s, step).approvals[step.a];
        p.decidedAt == Some(step.now) && p.expiresAt == s.approvals[step.a].expiresAt
  {
  }

  lemma CopyIsExact(s: State, step: Step)
    requires Enabled(s, step) && CopiesApproval(s, step)
    ensures After(s, step).approvals[step.a] == s.approvals[step.parent]
  {
  }

  lemma DecidedEarlier(steps: seq<Step>, k: nat, p: Approval)
    requires steps != [] && k < |steps| - 1 && DecidedAt(steps[..|steps| - 1], k, p)
    ensures DecidedAt(steps, k, p)
  {
    assert steps[..|steps| - 1][..k] == steps[..k];
  }

  // So every APPROVED approval, copied or not, goes back to a decision that
  // somebody took in time.
  lemma {:induction false} ApprovedByDecision(steps: seq<Step>, a: Id) returns (k: nat)
    requires Approves(Exec(steps), a)
    ensures k < |steps| && DecidedAt(steps, k, Exec(steps).approvals[a])
    decreases |steps|
  {
    var rest, step := steps[..|steps| - 1], steps[|steps| - 1];
    var s := Exec(rest);
    if Approves(s, a) {
      if Enabled(s, step) {
        ApprovedIsFinal(s, step, a);
      }
      k := ApprovedByDecision(rest, a);
      DecidedEarlier(steps, k, Exec(steps).approvals[a]);
    } else {
      BecomesApprovedIff(s, step, a);
      if ApprovingDecision(s, step) {
        DecisionStamps(s, step);
        k := |steps| - 1;
      } else {
        CopyIsExact(s, step);
        k := ApprovedByDecision(rest, step.parent);
        DecidedEarlier(steps, k, Exec(steps).approvals[a]);
      }
    }
  }

  // A mission that ever was authorized holds an approval that somebody had
  // decided APPROVED before it expired.
  lemma AuthorizedMeansApproved(steps: seq<Step>, k: nat) returns (a: Id, j: nat)
    requires k < |Exec(steps).history| && Exec(steps).history[k].to == CALL_AUTHORIZED
    ensures Approves(Exec(steps), a) && DecidedInTime(Exec(steps).approvals[a])
    ensures j < |steps| && DecidedAt(steps, j, Exec(steps).approvals[a])
  {
    var s := Exec(steps);
    ExecApprovals(steps);
    HistoryIsPath(steps);
    AuthorizedEntry(s.history, s.status, k);
    WasAuthorized(s, k);
    ApprovedInTime(s);
    a :| Approves(s, a) && DecidedInTime(s.approvals[a]);
    j := ApprovedByDecision(steps, a);
  }

  lemma ExecSnoc(steps: seq<Step>, step: Step)
    ensures Exec(steps + [step]) == Do(Exec(steps), step)
  {
    assert (steps + [step])[..|steps|] == steps;
  }

  lemma OneMore(steps: seq<Step>, k: nat)
    requires k < |steps|
    ensures Exec(steps[..k + 1]) == Do(Exec(steps[..k]), steps[k])
  {
    assert steps[..k + 1][..k] == steps[..k];
  }

  predicate DecidedOn(steps: seq<Step>, k: nat, a: Id)
    requires k < |steps|
  {
    ApprovingDecision(Exec(steps[..k]), steps[k]) && steps[k].a == a
  }

  predicate CopiedOnto(steps: seq<Step>, k: nat, a: Id)
    requires k < |steps|
  {
    CopiesApproval(Exec(steps[..k]), steps[k]) && steps[k].a == a
  }

  // Whatever follows, an approval stays on record, and APPROVED if it is.
  ghost predicate KeepsApproval(s: State, r: State, a: Id) {
    a in s.approvals ==> a in r.approvals && (Approves(s, a) ==> Approves(r, a))
  }

  lemma OneStepListed(s: State, step: Step, a: Id)
    ensures KeepsApproval(s, Do(s, step), a)
  {
  }

  lemma {:induction false} StaysListed(steps: seq<Step>, k: nat, n: nat, a: Id)
    requires k <= n <= |steps|
    ensures KeepsApproval(Exec(steps[..k]), Exec(steps[..n]), a)
    decreases n
  {
    if k < n {
      StaysListed(steps, k, n - 1, a);
      OneMore(steps, n - 1);
      OneStepListed(Exec(steps[..n - 1]), steps[n - 1], a);
    }
  }

  lemma {:induction false} BecameApproved(steps: seq<Step>, n: nat, a: Id) returns (k: nat)
    requires n <= |steps| && Approves(Exec(steps[..n]), a)
    ensures k < n && (DecidedOn(steps, k, a) || CopiedOnto(steps, k, a))
    decreases n
  {
    OneMore(steps, n - 1);
    if Approves(Exec(steps[..n - 1]), a) {
      k := BecameApproved(steps, n - 1, a);
    } else {
      BecomesApprovedIff(Exec(steps[..n - 1]), steps[n - 1], a);
      k := n - 1;
    }
  }

  // An approval that came in as a copy is never decided on, before or after.
  lemma CopyIsNeverDecided(steps: seq<Step>, k: nat, j: nat, a: Id)
    requires k < |steps| && j < |steps| && CopiedOnto(steps, k, a)
    ensures Approves(Exec(steps), a) && !DecidedOn(steps, j, a)
  {
    OneMore(steps, k);
    CopyIsExact(Exec(steps[..k]), steps[k]);
    StaysListed(steps, k + 1, |steps|, a);
    assert steps[..|steps|] == steps;
    if j > k {
      StaysListed(steps, k + 1, j, a);
    } else if a in Exec(steps[..j]).approvals {
      StaysListed(steps, j, k, a);
    }
  }

  // A run in which every approval that is APPROVED was decided on.
  ghost predicate DecisionsOnly(steps: seq<Step>) {
    forall a :: Approves(Exec(steps), a) ==> exists j :: 0 <= j < |steps| && DecidedOn(steps, j, a)
  }

  // So the documentation is right about a run exactly when no step of it copies
  // an approval.
  lemma DecisionsOnlyIff(steps: seq<Step>)
    ensures DecisionsOnly(steps) <==> forall k :: 0 <= k < |steps| ==> !CopiesApproval(Exec(steps[..k]), steps[k])
  {
    if k :| 0 <= k < |steps| && CopiesApproval(Exec(steps[..k]), steps[k]) {
      var a := steps[k].a;
      assert CopiedOnto(steps, k, a);
      CopyIsNeverDecided(steps, k, k, a);
      forall j | 0 <= j < |steps|
        ensures !DecidedOn(steps, j, a)
      {
        CopyIsNeverDecided(steps, k, j, a);
      }
    } else {
      assert steps[..|steps|] == steps;
      forall a | Approves(Exec(steps), a)
        ensures exists j :: 0 <= j < |steps| && DecidedOn(steps, j, a)
      {
        var j := BecameApproved(steps, |steps|, a);
        assert !CopiedOnto(steps, j, a);
      }
    }
  }

  // A run in which "b" is APPROVED though nobody ever decided on it.
  function CopiedRun(): seq<Step> {
    [RequestInsert("a", 0, 10)] + [Decide("a", true, 0)] + [Derive("b", "a", 1, true)]
  }

  lemma CopyIsReached()
    ensures Approves(Exec(CopiedRun()), "b")
    ensures forall k :: 0 <= k < |CopiedRun()| && CopiedRun()[k].Decide? ==> CopiedRun()[k].a != "b"
  {
    assert [] + [RequestInsert("a", 0, 10)] == [RequestInsert("a", 0, 10)];
    ExecSnoc([], RequestInsert("a", 0, 10));
    ExecSnoc([RequestInsert("a", 0, 10)], Decide("a", true, 0));
    ExecSnoc([RequestInsert("a", 0, 10)] + [Decide("a", true, 0)], Derive("b", "a", 1, true));
    var s2 := Exec([RequestInsert("a", 0, 10)] + [Decide("a", true, 0)]);
    assert Approves(s2, "a") && "b" !in s2.approvals;
  }

  // A decision that comes too late changes nothing, not even to the status its
  // error reports: the approval is PENDING until somebody expires what is stale.
  lemma LateDecisionIsRolledBack(s: State, a: Id, approve: bool, now: int)
    requires a in s.approvals && s.approvals[a].status == PENDING && PastExpiry(s.approvals[a], now)
    ensures Do(s, Decide(a, approve, now)) == s
    ensures Do(Do(s, Decide(a, approve, now)), ExpireStale(now)).approvals[a].status == EXPIRED
  {
    assert Stale(s.approvals[a], now);
  }

  lemma AuthorizedEntry(history: seq<Transition>, last: MissionStatus, k: nat)
    requires Path(history, MISSION_CREATED, last) && k < |history| && history[k].to == CALL_AUTHORIZED
    ensures history[k] == Transition(CALL_AUTHORIZATION_PENDING, CALL_AUTHORIZED)
  {
    PathAt(history, MISSION_CREATED, last, k);
    OnlyWayIn(history[k].from, history[k].to);
  }

  lemma WasAuthorized(s: State, k: nat)
    requires k < |s.history| && s.history[k] == Transition(CALL_AUTHORIZATION_PENDING, CALL_AUTHORIZED)
    ensures HasAuthorized(s)
  {
  }

  lemma ApprovedInTime(s: State)
    requires ApprovalsOk(s) && HasAuthorized(s)
    ensures exists a :: a in s.approvals && s.approvals[a].status == APPROVED && DecidedInTime(s.approvals[a])
  {
    var a :| a in s.approvals && s.approvals[a].status == APPROVED;
    assert DecidedInTime(s.approvals[a]);
  }

  // ---------------------------------------------------------------- when a mission gets stuck

  ghost predicate UnderWay(s: State) {
    s.advancing > 0 || s.reading > 0 || s.verdicts != multiset{}
  }

  // Waiting for an authorization that nobody is left to give or refuse.
  ghost predicate Stuck(s: State) {
    && s.status == CALL_AUTHORIZATION_PENDING
    && !AnyWith(s, PENDING)
    && !UnderWay(s)
  }

  // The second half of a request that finds no approval pending any more and
  // nobody about to draw the conclusion.
  ghost predicate Sticking(s: State, step: Step) {
    && step.RequestMove?
    && s.status == CALL_PLAN_READY
    && !AnyWith(s, PENDING)
    && !UnderWay(s)
  }

  lemma PendingStays(s: State, step: Step, a: Id)
    requires Enabled(s, step) && a in s.approvals && s.approvals[a].status == PENDING
    ensures var r := After(s, step); a in r.approvals && (r.approvals[a].status == PENDING || r.advancing > 0)
  {
  }

  // Only a request brings a mission to wait for authorization.
  lemma OnlyRequestsWait(s: State, step: Step)
    requires Enabled(s, step) && s.status != CALL_AUTHORIZATION_PENDING
        && After(s, step).status == CALL_AUTHORIZATION_PENDING
    ensures step.RequestMove? && s.status == CALL_PLAN_READY && After(s, step).approvals == s.approvals
  {
  }

  lemma ReadConcludes(s: State)
    requires Enabled(s, AdvanceRead) && !AnyWith(s, PENDING)
    ensures UnderWay(After(s, AdvanceRead))
  {
    var to := if AnyWith(s, APPROVED) then CALL_AUTHORIZED else REPLAN_DECISION_RUNNING;
    assert Verdict(s) == multiset{to};
    assert to in After(s, AdvanceRead).verdicts;
  }

  lemma MoveLeaves(s: State, to: MissionStatus)
    requires Enabled(s, AdvanceMove(to)) && s.status == CALL_AUTHORIZATION_PENDING
    ensures After(s, AdvanceMove(to)).status == to
  {
  }

  // While it waits, an operation under way stays so, finds a pending approval, or moves the mission.
  lemma WaitingContinues(s: State, step: Step)
    requires Enabled(s, step) && s.status == CALL_AUTHORIZATION_PENDING && UnderWay(s)
    ensures var r := After(s, step); UnderWay(r) || AnyWith(s, PENDING) || r.status != CALL_AUTHORIZATION_PENDING
  {
    match step
    case AdvanceRead =>
      if !AnyWith(s, PENDING) {
        ReadConcludes(s);
      }
    case AdvanceMove(to) => MoveLeaves(s, to);
    case _ =>
  }

  lemma OnlyStickingSticks(s: State, step: Step)
    requires Enabled(s, step) && !Stuck(s) && Stuck(After(s, step))
    ensures Sticking(s, step)
  {
    var r := After(s, step);
    assert !AnyWith(s, PENDING) by {
      if a :| a in s.approvals && s.approvals[a].status == PENDING {
        PendingStays(s, step, a);
      }
    }
    if s.status == CALL_AUTHORIZATION_PENDING {
      WaitingContinues(s, step);
    } else {
      OnlyRequestsWait(s, step);
    }
  }

  // A mission gets stuck by such a step, and by no other.
  lemma StuckIff(s: State, step: Step)
    requires Enabled(s, step) && !Stuck(s)
    ensures Stuck(After(s, step)) <==> Sticking(s, step)
  {
    if Stuck(After(s, step)) {
      OnlyStickingSticks(s, step);
    }
    if Sticking(s, step) {
      assert After(s, step).approvals == s.approvals;
    }
  }

  ghost predicate SticksAt(steps: seq<Step>, k: nat)
    requires k < |steps|
  {
    Enabled(Exec(steps[..k]), steps[k]) && Sticking(Exec(steps[..k]), steps[k])
  }

  // A run never leaves its mission waiting for nobody exactly when none of its
  // steps is such a step.
  lemma {:induction false} NeverStuckIff(steps: seq<Step>)
    ensures (forall n :: 0 <= n <= |steps| ==> !Stuck(Exec(steps[..n])))
        <==> (forall k :: 0 <= k < |steps| ==> !SticksAt(steps, k))
  {
    if k :| 0 <= k < |steps| && SticksAt(steps, k) {
      OneMore(steps, k);
      if !Stuck(Exec(steps[..k])) {
        StuckIff(Exec(steps[..k]), steps[k]);
      }
    }
    if forall k :: 0 <= k < |steps| ==> !SticksAt(steps, k) {
      forall n | 0 <= n <= |steps|
        ensures !Stuck(Exec(steps[..n]))
      {
        NotStuckBy(steps, n);
      }
    }
  }

  lemma {:induction false} NotStuckBy(steps: seq<Step>, n: nat)
    requires n <= |steps| && forall k :: 0 <= k < |steps| ==> !SticksAt(steps, k)
    ensures !Stuck(Exec(steps[..n]))
    decreases n
  {
    if n > 0 {
      NotStuckBy(steps, n - 1);
      OneMore(steps, n - 1);
      assert !SticksAt(steps, n - 1);
      if Enabled(Exec(steps[..n - 1]), steps[n - 1]) {
        StuckIff(Exec(steps[..n - 1]), steps[n - 1]);
      }
    }
  }

  // Between operations, then, a waiting mission has a pending approval.
  lemma PendingWhileWaiting(steps: seq<Step>)
    requires forall k :: 0 <= k < |steps| ==> !SticksAt(steps, k)
    requires Exec(steps).status == CALL_AUTHORIZATION_PENDING && !UnderWay(Exec(steps))
    ensures AnyWith(Exec(steps), PENDING)
  {
    NotStuckBy(steps, |steps|);
    assert steps[..|steps|] == steps;
  }

  // And such steps exist: whenever a plan is ready and nothing is pending or
  // under way, a decision that lands between the two halves of a request leads
  // to one.
  lemma LateRequestSticks(s: State, a: Id, now: int, expiresAt: int, approve: bool)
    requires s.status == CALL_PLAN_READY && a !in s.approvals && !AnyWith(s, PENDING) && !UnderWay(s) && now < expiresAt
    ensures var t := Do(Do(Do(s, RequestInsert(a, now, expiresAt)), Decide(a, approve, now)), AdvanceStart);
      Enabled(t, RequestMove(a)) && Sticking(t, RequestMove(a)) && Stuck(Do(t, RequestMove(a)))
  {
    var s1 := Do(s, RequestInsert(a, now, expiresAt));
    assert Decidable(s1, a, now);
    var s2 := Do(s1, Decide(a, approve, now));
    assert s2.approvals == s.approvals[a := s2.approvals[a]] && s2.approvals[a].status != PENDING;
    var s3 := Do(s2, AdvanceStart);
    assert s3.approvals == s2.approvals && s3.status == CALL_PLAN_READY;
    forall x | x in s3.approvals
      ensures s3.approvals[x].status != PENDING
    {
      assert x == a || s3.approvals[x] == s.approvals[x];
    }
    StuckIff(s3, RequestMove(a));
  }

  // The statuses of a mission that goes straight ahead, and the proposals that take it there.
  function StatusAfter(n: nat): MissionStatus {
    if n == 0 then MISSION_CREATED else Closer(StatusAfter(n - 1))
  }

  function StraightAhead(n: nat): seq<Step> {
    if n == 0 then [] else StraightAhead(n - 1) + [Propose(StatusAfter(n))]
  }

  lemma {:induction false} StraightAheadDistance(n: nat)
    requires n <= 17
    ensures Distance(StatusAfter(n)) == 17 - n
    ensures n < 17 ==> !Terminal(StatusAfter(n))
  {
    if n > 0 {
      StraightAheadDistance(n - 1);
      CloserIsForward(StatusAfter(n - 1));
    }
    LiveHasDistance(StatusAfter(n));
  }

  lemma LiveHasDistance(st: MissionStatus)
    ensures Distance(st) > 0 ==> !Terminal(st)
  {
  }

  lemma CloserIsOpen(st: MissionStatus)
    ensures Closer(st) != CALL_AUTHORIZATION_PENDING && Closer(st) != CALL_AUTHORIZED
  {
  }

  // Nothing but the status, as at the beginning.
  ghost predicate Quiet(s: State) {
    s.approvals == map[] && s.requesting == {} && !UnderWay(s)
  }

  lemma ProposeCloser(s: State)
    requires Quiet(s) && !Terminal(s.status)
    ensures var r := Do(s, Propose(Closer(s.status))); r.status == Closer(s.status) && Quiet(r)
  {
    CloserIsOpen(s.status);
    CloserIsForward(s.status);
  }

  lemma {:induction false} StraightAheadRun(n: nat)
    requires n <= 17
    ensures Exec(StraightAhead(n)).status == StatusAfter(n) && Quiet(Exec(StraightAhead(n)))
  {
    if n > 0 {
      StraightAheadRun(n - 1);
      StraightAheadDistance(n - 1);
      ProposeCloser(Exec(StraightAhead(n - 1)));
      ExecSnoc(StraightAhead(n - 1), Propose(StatusAfter(n)));
    }
  }

  // After eleven proposals the call plan is ready.
  lemma PlanReadyReached()
    ensures StatusAfter(11) == CALL_PLAN_READY
  {
    assert StatusAfter(3) == STRATEGY_DISCOVERY_RUNNING;
    assert StatusAfter(6) == SWARM_READY;
    assert StatusAfter(9) == INFORMATION_GAPS_READY;
  }

  // A whole run, from the creation of the mission, that gets it stuck.
  function StuckRun(): seq<Step> {
    StraightAhead(11) + [RequestInsert("a", 0, 1)] + [Decide("a", true, 0)] + [AdvanceStart] + [RequestMove("a")]
  }

  lemma StuckIsReached()
    ensures Stuck(Exec(StuckRun()))
  {
    StraightAheadRun(11);
    PlanReadyReached();
    var ready := StraightAhead(11);
    LateRequestSticks(Exec(ready), "a", 0, 1, true);
    ExecSnoc(ready, RequestInsert("a", 0, 1));
    ExecSnoc(ready + [RequestInsert("a", 0, 1)], Decide("a", true, 0));
    ExecSnoc(ready + [RequestInsert("a", 0, 1)] + [Decide("a", true, 0)], AdvanceStart);
    ExecSnoc(ready + [RequestInsert("a", 0, 1)] + [Decide("a", true, 0)] + [AdvanceStart], RequestMove("a"));
  }

  lemma ExpireClears(s: State, now: int)
    requires AnyWith(s, PENDING)
    requires forall a :: a in s.approvals && s.approvals[a].status == PENDING ==> PastExpiry(s.approvals[a], now)
    ensures var r := Do(s, ExpireStale(now)); !AnyWith(r, PENDING) && r.advancing > 0 && r.status == s.status
  {
    var p :| p in s.approvals && s.approvals[p].status == PENDING;
    assert Stale(s.approvals[p], now);
    var r := Do(s, ExpireStale(now));
    forall x | x in r.approvals
      ensures r.approvals[x].status != PENDING
    {
      assert s.approvals[x].status == PENDING ==> Stale(s.approvals[x], now);
    }
  }

  lemma AdvanceMoves(s: State)
    requires s.status == CALL_AUTHORIZATION_PENDING && !AnyWith(s, PENDING) && s.advancing > 0
    ensures var r := Do(Do(s, AdvanceStart), AdvanceRead);
      exists to :: to in r.verdicts && (to == CALL_AUTHORIZED || to == REPLAN_DECISION_RUNNING)
          && Do(r, AdvanceMove(to)).status == to
  {
    var s1 := Do(s, AdvanceStart);
    assert s1.approvals == s.approvals && s1.status == s.status && s1.reading > 0;
    var r := Do(s1, AdvanceRead);
    var to := if AnyWith(s1, APPROVED) then CALL_AUTHORIZED else REPLAN_DECISION_RUNNING;
    assert Verdict(s1) == multiset{to} && to in r.verdicts && r.status == s.status;
    MoveLeaves(r, to);
  }

  // A mission waiting on pending approvals can always be moved on: once they are
  // past their expiry, expire_stale does it.
  lemma ExpiryUnblocks(s: State, now: int)
    requires s.status == CALL_AUTHORIZATION_PENDING && AnyWith(s, PENDING)
    requires forall a :: a in s.approvals && s.approvals[a].status == PENDING ==> PastExpiry(s.approvals[a], now)
    ensures var r := Do(Do(Do(s, ExpireStale(now)), AdvanceStart), AdvanceRead);
      exists to :: to in r.verdicts && (to == CALL_AUTHORIZED || to == REPLAN_DECISION_RUNNING)
          && Do(r, AdvanceMove(to)).status == to
  {
    ExpireClears(s, now);
    AdvanceMoves(Do(s, ExpireStale(now)));
  }
}
