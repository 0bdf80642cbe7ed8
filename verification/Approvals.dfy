// The approval service and the state machine it drives, one operation at a time.
module Approvals {
  import opened Mission
  import opened Models

  datatype ApprovalError = ApprovalNotFound | ApprovalNotPending | IllegalTransition | TriggerRequired

  // Nothing is under way between two operations.
  ghost predicate Idle(s: State) {
    s.requesting == {} && s.advancing == 0 && s.reading == 0 && s.verdicts == multiset{}
  }

  function Rows(status: MissionStatus, history: seq<Transition>, approvals: map<Id, Approval>): State {
    State(status, history, approvals, {}, 0, 0, multiset{})
  }

  // What a request does to the rows: a pending approval, and a mission that
  // waits for it if its call plan was ready.
  function Requested(s: State, a: Id, now: int, expiresAt: int): State {
    var approvals := s.approvals[a := Approval(PENDING, now, Some(expiresAt), None)];
    if s.status == CALL_PLAN_READY
    then Rows(CALL_AUTHORIZATION_PENDING, s.history + [Transition(CALL_PLAN_READY, CALL_AUTHORIZATION_PENDING)],
        approvals)
    else Rows(s.status, s.history, approvals)
  }

  // What _advance_mission does to the rows.
  function Advanced(s: State): State {
    if s.status != CALL_AUTHORIZATION_PENDING then s
    else if AnyWith(s, APPROVED) then ProposeTransition(s, CALL_AUTHORIZED)
    else if !AnyWith(s, PENDING) then ProposeTransition(s, REPLAN_DECISION_RUNNING)
    else s
  }

  lemma SameRows(s: State, t: State)
    requires s.approvals == t.approvals
    ensures Verdict(s) == Verdict(t)
  {
    assert AnyWith(s, APPROVED) == AnyWith(t, APPROVED) && AnyWith(s, PENDING) == AnyWith(t, PENDING);
  }

  lemma AdvanceReads(s: State)
    requires Idle(s)
    ensures Do(Do(s.(advancing := 1), AdvanceStart), AdvanceRead) ==
      if s.status == CALL_AUTHORIZATION_PENDING then s.(verdicts := Verdict(s)) else s
  {
    var s1 := Do(s.(advancing := 1), AdvanceStart);
    SameRows(s, s1);
    if s.status == CALL_AUTHORIZATION_PENDING {
      assert s1 == s.(reading := 1);
      assert multiset{} + Verdict(s) == Verdict(s);
    } else {
      assert s1 == s;
    }
  }

  lemma AdvanceMovesOn(s: State, to: MissionStatus)
    requires s.status == CALL_AUTHORIZATION_PENDING && (to == CALL_AUTHORIZED || to == REPLAN_DECISION_RUNNING)
    ensures Do(s.(verdicts := multiset{to}), AdvanceMove(to)) == ProposeTransition(s.(verdicts := multiset{}), to)
    ensures IsAllowed(s.status, to)
  {
    assert multiset{to} - multiset{to} == multiset{};
  }

  lemma NothingToMove(s: State, to: MissionStatus)
    requires to !in s.verdicts
    ensures Do(s, AdvanceMove(to)) == s
  {
  }

  // It is its transactions, run without interference.
  lemma AdvanceConcludes(s: State)
    requires Idle(s)
    ensures Do(Do(Do(Do(s.(advancing := 1), AdvanceStart), AdvanceRead), AdvanceMove(CALL_AUTHORIZED)),
        AdvanceMove(REPLAN_DECISION_RUNNING)) == Advanced(s)
  {
    AdvanceReads(s);
    assert s.(verdicts := multiset{}) == s;
    if s.status != CALL_AUTHORIZATION_PENDING {
      NothingToMove(s, CALL_AUTHORIZED);
      NothingToMove(s, REPLAN_DECISION_RUNNING);
    } else if AnyWith(s, APPROVED) {
      AdvanceMovesOn(s, CALL_AUTHORIZED);
      NothingToMove(ProposeTransition(s, CALL_AUTHORIZED), REPLAN_DECISION_RUNNING);
    } else if !AnyWith(s, PENDING) {
      NothingToMove(s.(verdicts := multiset{REPLAN_DECISION_RUNNING}), CALL_AUTHORIZED);
      AdvanceMovesOn(s, REPLAN_DECISION_RUNNING);
    } else {
      NothingToMove(s, CALL_AUTHORIZED);
      NothingToMove(s, REPLAN_DECISION_RUNNING);
    }
  }

  // A mission that waits for authorization has a pending approval.
  ghost predicate Waits(s: State) {
    s.status == CALL_AUTHORIZATION_PENDING ==> AnyWith(s, PENDING)
  }

  lemma AdvancedWaits(s: State)
    requires Idle(s)
    ensures Waits(Advanced(s)) && Idle(Advanced(s))
  {
  }

  // The history is a path of the table to the current status, every approval
  // granted was granted in time and stands behind any authorization, and a
  // mission that waits has something to wait for.
  ghost predicate Good(s: State) {
    Path(s.history, MISSION_CREATED, s.status) && ApprovalsOk(s) && Waits(s)
  }

  // What anybody else proposes keeps all that.
  lemma ProposedGood(s: State, to: MissionStatus)
    requires Idle(s) && Good(s) && IsAllowed(s.status, to) && to != CALL_AUTHORIZATION_PENDING && to != CALL_AUTHORIZED
    ensures Good(Rows(to, s.history + [Transition(s.status, to)], s.approvals))
    ensures Rows(to, s.history + [Transition(s.status, to)], s.approvals) == Do(s, Propose(to))
  {
    ProposePath(s, to);
    StepApprovals(s, Propose(to));
  }

  class ApprovalService {
    var status: MissionStatus
    var history: seq<Transition>
    var approvals: map<Id, Approval>
    const ttl: nat

    ghost function Contents(): State
      reads this
    {
      Rows(status, history, approvals)
    }

    ghost predicate Valid()
      reads this
    {
      Good(Contents())
    }

    constructor (ttl: nat)
      ensures Valid() && Contents() == Initial() && this.ttl == ttl
    {
      status, history, approvals := MISSION_CREATED, [], map[];
      this.ttl := ttl;
    }

    // Checked against the stored status; refused without a trace. The two
    // statuses of this service are proposed by its own methods only.
    method ProposeTransition(to: MissionStatus, trigger: string, strip: string -> string)
        returns (r: Result<MissionStatus, ApprovalError>)
      requires Valid() && to != CALL_AUTHORIZATION_PENDING && to != CALL_AUTHORIZED
      modifies this`status, this`history
      ensures Valid()
      ensures r.Ok? <==> strip(trigger) != "" && IsAllowed(old(status), to)
      ensures r.Ok? ==> r.value == to && Contents() == Do(old(Contents()), Propose(to))
      ensures r.Err? ==> Contents() == old(Contents())
    {
      if strip(trigger) == "" {
        return Err(TriggerRequired);
      }
      if !IsAllowed(status, to) {
        return Err(IllegalTransition);
      }
      ProposedGood(Contents(), to);
      status, history := to, history + [Transition(status, to)];
      r := Ok(to);
    }

    method Request(a: Id, now: int) returns (approval: Approval)
      requires Valid() && a !in approvals
      modifies this
      ensures Valid()
      ensures approval == Approval(PENDING, now, Some(now + ttl), None)
      ensures Contents() == Requested(old(Contents()), a, now, now + ttl)
    {
      approval := StoreRequest(a, now);
      if status == CALL_PLAN_READY {
        WaitingKeeps(Contents(), a);
        status, history := CALL_AUTHORIZATION_PENDING, history + [Transition(status, CALL_AUTHORIZATION_PENDING)];
      }
    }

    // The first transaction of a request: the approval.
    method StoreRequest(a: Id, now: int) returns (approval: Approval)
      requires Valid() && a !in approvals
      modifies this`approvals
      ensures Valid() && AnyWith(Contents(), PENDING)
      ensures approval == Approval(PENDING, now, Some(now + ttl), None) && approvals == old(approvals)[a := approval]
    {
      approval := Approval(PENDING, now, Some(now + ttl), None);
      StepApprovals(Contents(), RequestInsert(a, now, now + ttl));
      approvals := approvals[a := approval];
      assert approvals[a].status == PENDING;
    }

    // Applies a decision to a pending approval. A late one is refused, and the
    // expiry it noticed is rolled back with it.
    method Decide(a: Id, approve: bool, now: int) returns (r: Result<Approval, ApprovalError>)
      requires Valid()
      modifies this
      ensures Valid()
      ensures r.Ok? <==> Decidable(old(Contents()), a, now)
      ensures r.Err? ==> Contents() == old(Contents())
      ensures r.Ok? ==> Contents() == Advanced(Do(old(Contents()), Mission.Decide(a, approve, now)).(advancing := 0))
    {
      if a !in approvals {
        return Err(ApprovalNotFound);
      }
      if approvals[a].status != PENDING || PastExpiry(approvals[a], now) {
        return Err(ApprovalNotPending);
      }
      ghost var before := Contents();
      var updated := approvals[a].(status := if approve then APPROVED else REJECTED, decidedAt := Some(now));
      StepApprovals(before, Mission.Decide(a, approve, now));
      approvals := approvals[a := updated];
      assert Contents() == Do(before, Mission.Decide(a, approve, now)).(advancing := 0);
      AdvanceMission();
      r := Ok(updated);
    }

    // Expires what is past its time, and moves the mission if that was all.
    method ExpireStale(now: int) returns (expired: seq<Id>)
      requires Valid()
      modifies this
      ensures Valid()
      ensures forall a :: a in expired <==> a in old(approvals) && Stale(old(approvals)[a], now)
      ensures Contents() == if expired == [] then old(Contents())
          else Advanced(Rows(old(status), old(history), Expired(old(approvals), now)))
    {
      ghost var before := Contents();
      expired := [];
      var todo := approvals.Keys;
      var rows := approvals;
      while todo != {}
        invariant todo <= approvals.Keys == rows.Keys && Contents() == before
        invariant forall a :: a in approvals ==> rows[a] == if a !in todo && Stale(approvals[a], now)
            then approvals[a].(status := EXPIRED) else approvals[a]
        invariant forall a :: a in expired <==> a in approvals.Keys - todo && Stale(approvals[a], now)
        decreases |todo|
      {
        var a :| a in todo;
        todo := todo - {a};
        if Stale(rows[a], now) {
          rows := rows[a := rows[a].(status := EXPIRED)];
          expired := expired + [a];
        }
      }
      assert rows == Expired(approvals, now);
      StepApprovals(before, Mission.ExpireStale(now));
      approvals := rows;
      if expired != [] {
        ghost var e := expired[0];
        AdvanceMission();
      } else {
        assert forall a :: a in before.approvals ==> rows[a] == before.approvals[a];
        assert approvals == before.approvals;
      }
    }

    method AdvanceMission()
      requires Path(history, MISSION_CREATED, status) && ApprovalsOk(Contents())
      modifies this`status, this`history
      ensures Contents() == Advanced(old(Contents()))
      ensures Valid()
    {
      ghost var before := Contents();
      AdvancedWaits(before);
      AdvancedApprovals(before);
      AdvancedPath(before);
      if status != CALL_AUTHORIZATION_PENDING {
        return;
      }
      if AnyApproval(approvals, APPROVED) {
        status, history := CALL_AUTHORIZED, history + [Transition(status, CALL_AUTHORIZED)];
      } else if !AnyApproval(approvals, PENDING) {
        status, history := REPLAN_DECISION_RUNNING, history + [Transition(status, REPLAN_DECISION_RUNNING)];
      }
    }
  }

  predicate AnyApproval(approvals: map<Id, Approval>, st: ApprovalStatus) {
    exists a :: a in approvals && approvals[a].status == st
  }

  lemma AdvancedPath(s: State)
    requires Path(s.history, MISSION_CREATED, s.status)
    ensures Path(Advanced(s).history, MISSION_CREATED, Advanced(s).status)
    ensures AnyWith(s, APPROVED) == AnyApproval(s.approvals, APPROVED)
        && AnyWith(s, PENDING) == AnyApproval(s.approvals, PENDING)
    ensures IsAllowed(CALL_AUTHORIZATION_PENDING, CALL_AUTHORIZED)
        && IsAllowed(CALL_AUTHORIZATION_PENDING, REPLAN_DECISION_RUNNING)
  {
    ProposePath(s, CALL_AUTHORIZED);
    ProposePath(s, REPLAN_DECISION_RUNNING);
  }

  // Moving a ready call plan to wait for a pending approval keeps what the
  // service promises.
  lemma WaitingKeeps(s: State, a: Id)
    requires Idle(s) && Good(s) && s.status == CALL_PLAN_READY && AnyWith(s, PENDING)
    ensures Good(Rows(CALL_AUTHORIZATION_PENDING, s.history
        + [Transition(CALL_PLAN_READY, CALL_AUTHORIZATION_PENDING)], s.approvals))
  {
    ProposePath(s, CALL_AUTHORIZATION_PENDING);
    StepApprovals(s.(requesting := {a}), RequestMove(a));
  }

  // It is its two transactions, run without interference.
  lemma RequestConcludes(s: State, a: Id, now: int, expiresAt: int)
    requires Idle(s) && a !in s.approvals
    ensures Do(Do(s, RequestInsert(a, now, expiresAt)), RequestMove(a)) == Requested(s, a, now, expiresAt)
  {
    var s1 := Do(s, RequestInsert(a, now, expiresAt));
    assert s1.requesting - {a} == {};
  }

  lemma AdvancedApprovals(s: State)
    requires Idle(s) && ApprovalsOk(s)
    ensures ApprovalsOk(Advanced(s))
  {
    var r := Advanced(s);
    assert r.approvals == s.approvals && AnyWith(r, APPROVED) == AnyWith(s, APPROVED);
    if s.status == CALL_AUTHORIZATION_PENDING && !AnyWith(s, APPROVED) {
      assert r.status != CALL_AUTHORIZED && r.verdicts == s.verdicts;
      assert forall t :: t in r.history ==>
          t in s.history || t == Transition(CALL_AUTHORIZATION_PENDING, REPLAN_DECISION_RUNNING);
    }
  }
}
