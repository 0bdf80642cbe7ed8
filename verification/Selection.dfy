// Deterministic call priority and top-k selection.
module Selection {
  import opened Models
  import opened Ordering

  datatype Factors = Factors(
    missionImpact: real,
    uncertainty: real,
    timeSensitivity: real,
    expectedValue: real,
    strategyChangePotential: real,
    evidenceImportance: real,
    redundancy: real,
    callCost: real)

  datatype Weights = Weights(
    missionImpact: real,
    uncertainty: real,
    timeSensitivity: real,
    expectedValue: real,
    strategyChangePotential: real,
    evidenceImportance: real,
    redundancy: real,
    callCost: real)

  ghost predicate NonNegative(w: Weights) {
    && w.missionImpact >= 0.0 && w.uncertainty >= 0.0 && w.timeSensitivity >= 0.0 && w.expectedValue >= 0.0
    && w.strategyChangePotential >= 0.0 && w.evidenceImportance >= 0.0 && w.redundancy >= 0.0 && w.callCost >= 0.0
  }

  // Rounding to six places, of which only this matters here.
  ghost predicate RoundOk(round: real -> real) {
    round(0.0) == 0.0 && round(1.0) == 1.0 && forall x, y :: x <= y ==> round(x) <= round(y)
  }

  // ---------------------------------------------------------------- priority

  function Positive(f: Factors, w: Weights): real {
    w.missionImpact * f.missionImpact + w.uncertainty * f.uncertainty + w.timeSensitivity * f.timeSensitivity
    + w.expectedValue * f.expectedValue + w.strategyChangePotential * f.strategyChangePotential
    + w.evidenceImportance * f.evidenceImportance
  }

  function Penalty(f: Factors, w: Weights): real {
    w.redundancy * f.redundancy + w.callCost * f.callCost
  }

  function Clamp(x: real): real {
    if x > 1.0 then 1.0 else if x < 0.0 then 0.0 else x
  }

  function ComputePriority(f: Factors, w: Weights, round: real -> real): real {
    round(Clamp(Positive(f, w) - Penalty(f, w)))
  }

  lemma PriorityInRange(f: Factors, w: Weights, round: real -> real)
    requires RoundOk(round)
    ensures 0.0 <= ComputePriority(f, w, round) <= 1.0
  {
    var x := Clamp(Positive(f, w) - Penalty(f, w));
    assert round(0.0) <= round(x) <= round(1.0);
  }

  // Better in every benefit, no worse in any penalty.
  ghost predicate AtLeast(g: Factors, f: Factors) {
    && f.missionImpact <= g.missionImpact && f.uncertainty <= g.uncertainty && f.timeSensitivity <= g.timeSensitivity
    && f.expectedValue <= g.expectedValue && f.strategyChangePotential <= g.strategyChangePotential
    && f.evidenceImportance <= g.evidenceImportance
    && g.redundancy <= f.redundancy && g.callCost <= f.callCost
  }

  lemma Scaled(w: real, x: real, y: real)
    requires w >= 0.0 && x <= y
    ensures w * x <= w * y
  {
    assert w * y - w * x == w * (y - x);
  }

  lemma PositiveMonotone(f: Factors, g: Factors, w: Weights)
    requires NonNegative(w) && AtLeast(g, f)
    ensures Positive(f, w) <= Positive(g, w)
  {
    Scaled(w.missionImpact, f.missionImpact, g.missionImpact);
    Scaled(w.uncertainty, f.uncertainty, g.uncertainty);
    Scaled(w.timeSensitivity, f.timeSensitivity, g.timeSensitivity);
    Scaled(w.expectedValue, f.expectedValue, g.expectedValue);
    Scaled(w.strategyChangePotential, f.strategyChangePotential, g.strategyChangePotential);
    Scaled(w.evidenceImportance, f.evidenceImportance, g.evidenceImportance);
  }

  lemma ClampMonotone(x: real, y: real)
    requires x <= y
    ensures Clamp(x) <= Clamp(y)
  {
  }

  // More benefit or less penalty never lowers the priority.
  lemma PriorityMonotone(f: Factors, g: Factors, w: Weights, round: real -> real)
    requires NonNegative(w) && RoundOk(round) && AtLeast(g, f)
    ensures ComputePriority(f, w, round) <= ComputePriority(g, w, round)
  {
    PositiveMonotone(f, g, w);
    Scaled(w.redundancy, g.redundancy, f.redundancy);
    Scaled(w.callCost, g.callCost, f.callCost);
    assert Penalty(g, w) <= Penalty(f, w);
    ClampMonotone(Positive(f, w) - Penalty(f, w), Positive(g, w) - Penalty(g, w));
  }

  // ---------------------------------------------------------------- what is worth calling

  datatype Intent = Intent(
    id: Id,
    blocked: bool,
    purpose: string,
    goal: string,
    impact: string,
    factors: Option<Factors>,
    score: real)

  datatype Policy = Policy(callsAllowed: bool, maxCallCount: int)

  datatype Budget = Budget(maxCalls: int, callsUsed: int)

  datatype Reason = Blocked | PolicyForbids | Prohibited(purpose: string) | NoFactors | Redundant | BelowMinimum
      | OverBudget

  datatype RejectedIntent = RejectedIntent(id: Id, reason: Reason)

  datatype Settings = Settings(
    policy: Policy,
    weights: Weights,
    minPriority: real,
    purposes: seq<string>,
    round: real -> real,
    lower: string -> string,
    strip: string -> string)

  const REDUNDANT_THRESHOLD := 0.9

  function Remaining(b: Budget): nat {
    if b.maxCalls > b.callsUsed then b.maxCalls - b.callsUsed else 0
  }

  // The first listed purpose that occurs in what the intent says.
  function ProhibitedPurpose(v: Intent, purposes: seq<string>, c: Settings): Option<string> {
    if purposes == [] then None
    else
      var needle := c.lower(c.strip(purposes[0]));
      if needle != "" && Contains(c.lower(v.purpose + " " + v.goal + " " + v.impact), needle) then Some(purposes[0])
      else ProhibitedPurpose(v, purposes[1..], c)
  }

  function BlockReason(v: Intent, c: Settings): Option<Reason> {
    if v.blocked then Some(Blocked)
    else if !c.policy.callsAllowed then Some(PolicyForbids)
    else match ProhibitedPurpose(v, c.purposes, c)
      case Some(p) => Some(Prohibited(p))
      case None => None
  }

  function Score(v: Intent, c: Settings): real {
    if v.factors.Some? then ComputePriority(v.factors.value, c.weights, c.round) else 0.0
  }

  // Why an intent is not worth a call, whatever the budget.
  function Refusal(v: Intent, c: Settings): Option<Reason> {
    if BlockReason(v, c).Some? then BlockReason(v, c)
    else if v.factors.None? then Some(NoFactors)
    else if v.factors.value.redundancy >= REDUNDANT_THRESHOLD then Some(Redundant)
    else if Score(v, c) < c.minPriority then Some(BelowMinimum)
    else None
  }

  predicate Eligible(v: Intent, c: Settings) {
    Refusal(v, c).None?
  }

  function WithScore(v: Intent, c: Settings): Intent {
    v.(score := Score(v, c))
  }

  function Scored(intents: seq<Intent>, c: Settings): (r: seq<Intent>)
    ensures |r| <= |intents|
  {
    if intents == [] then [] else
      var v := intents[|intents| - 1];
      Scored(intents[..|intents| - 1], c) + if Eligible(v, c) then [WithScore(v, c)] else []
  }

  function Refused(intents: seq<Intent>, c: Settings): seq<RejectedIntent> {
    if intents == [] then [] else
      var v := intents[|intents| - 1];
      Refused(intents[..|intents| - 1], c) + if Eligible(v, c) then [] else [RejectedIntent(v.id, Refusal(v, c).value)]
  }

  // ---------------------------------------------------------------- ranking

  // Higher score first; ties by id.
  predicate Precedes(a: Intent, b: Intent) {
    a.score > b.score || (a.score == b.score && Leq(a.id, b.id))
  }

  lemma PrecedesTotal(a: Intent, b: Intent)
    ensures Precedes(a, b) || Precedes(b, a)
    ensures Precedes(a, b) && Precedes(b, a) ==> a.id == b.id
  {
    LeqTotal(a.id, b.id);
    if Leq(a.id, b.id) && Leq(b.id, a.id) {
      LeqAntisymmetric(a.id, b.id);
    }
  }

  lemma PrecedesTransitive(a: Intent, b: Intent, c: Intent)
    requires Precedes(a, b) && Precedes(b, c)
    ensures Precedes(a, c)
  {
    if a.score == b.score == c.score {
      LeqTransitive(a.id, b.id, c.id);
    }
  }

  function Insert(v: Intent, ranked: seq<Intent>): (r: seq<Intent>)
    ensures |r| == |ranked| + 1
    ensures forall x :: x in r <==> x == v || x in ranked
  {
    if ranked == [] then [v]
    else if Precedes(v, ranked[0]) then [v] + ranked
    else [ranked[0]] + Insert(v, ranked[1..])
  }

  function Ranked(s: seq<Intent>): (r: seq<Intent>)
    ensures |r| == |s|
    ensures forall x :: x in r <==> x in s
  {
    if s == [] then [] else Insert(s[0], Ranked(s[1..]))
  }

  ghost predicate InRank(s: seq<Intent>) {
    forall i, j :: 0 <= i < j < |s| ==> Precedes(s[i], s[j])
  }

  ghost predicate DistinctIds(s: seq<Intent>) {
    forall i, j :: 0 <= i < j < |s| ==> s[i].id != s[j].id
  }

  lemma {:induction false} InsertInRank(v: Intent, ranked: seq<Intent>)
    requires InRank(ranked)
    ensures InRank(Insert(v, ranked))
  {
    if ranked != [] {
      var r := Insert(v, ranked);
      if Precedes(v, ranked[0]) {
        forall j | 0 <= j < |ranked|
          ensures Precedes(v, ranked[j])
        {
          if j > 0 {
            PrecedesTransitive(v, ranked[0], ranked[j]);
          }
        }
      } else {
        PrecedesTotal(v, ranked[0]);
        InsertInRank(v, ranked[1..]);
        forall x | x in Insert(v, ranked[1..])
          ensures Precedes(ranked[0], x)
        {
          if x != v {
            var j :| 0 <= j < |ranked[1..]| && ranked[1..][j] == x;
            assert ranked[j + 1] == x;
          }
        }
      }
    }
  }

  lemma {:induction false} RankedInRank(s: seq<Intent>)
    ensures InRank(Ranked(s))
  {
    if s != [] {
      RankedInRank(s[1..]);
      InsertInRank(s[0], Ranked(s[1..]));
    }
  }

  ghost predicate IdsDiffer(s: seq<Intent>) {
    forall x, y :: x in s && y in s && x.id == y.id ==> x == y
  }

  // A ranking of given intents is unique: the order they came in cannot matter.
  lemma {:induction false} RankingUnique(a: seq<Intent>, b: seq<Intent>)
    requires InRank(a) && InRank(b) && Distinct(a) && Distinct(b) && IdsDiffer(a)
    requires forall x :: x in a <==> x in b
    ensures a == b
    decreases |a|
  {
    DistinctCount(a);
    DistinctCount(b);
    assert Elements(a) == Elements(b);
    if a != [] {
      assert a[0] in b;
      FirstIsFirst(a, b);
      SameTail(a, b);
      RankingUnique(a[1..], b[1..]);
      assert a == [a[0]] + a[1..] && b == [b[0]] + b[1..];
    }
  }

  lemma FirstIsFirst(a: seq<Intent>, b: seq<Intent>)
    requires InRank(a) && InRank(b) && a != [] && b != [] && IdsDiffer(a) && forall x :: x in a <==> x in b
    ensures a[0] == b[0]
  {
    assert a[0] in b && b[0] in a;
    var i :| 0 <= i < |b| && b[i] == a[0];
    var j :| 0 <= j < |a| && a[j] == b[0];
    if i > 0 && j > 0 {
      assert Precedes(b[0], a[0]) && Precedes(a[0], b[0]);
      PrecedesTotal(a[0], b[0]);
    }
  }

  lemma SameTail(a: seq<Intent>, b: seq<Intent>)
    requires a != [] && b != [] && a[0] == b[0] && Distinct(a) && Distinct(b) && InRank(a) && InRank(b) && IdsDiffer(a)
    requires forall x :: x in a <==> x in b
    ensures InRank(a[1..]) && InRank(b[1..]) && Distinct(a[1..]) && Distinct(b[1..]) && IdsDiffer(a[1..])
    ensures forall x :: x in a[1..] <==> x in b[1..]
  {
    TailElements(a);
    TailElements(b);
  }

  lemma TailElements(a: seq<Intent>)
    requires a != [] && Distinct(a)
    ensures forall x :: x in a[1..] <==> x in a && x != a[0]
  {
    forall x | x in a && x != a[0]
      ensures x in a[1..]
    {
      var i :| 0 <= i < |a| && a[i] == x;
      assert a[1..][i - 1] == x;
    }
  }

  // ---------------------------------------------------------------- selection

  // Python's s[:cap], for any integer cap.
  function Kept(n: nat, cap: int): (k: nat)
    ensures k <= n && (cap >= 0 ==> k == if cap < n then cap else n)
  {
    if cap >= n then n else if cap >= 0 then cap else if n + cap >= 0 then n + cap else 0
  }

  function Least(a: int, b: int): int {
    if a <= b then a else b
  }

  function CapOf(budget: Budget, policy: Policy, hardCap: Option<int>): int {
    var cap := Least(Remaining(budget), policy.maxCallCount);
    if hardCap.Some? then Least(cap, hardCap.value) else cap
  }

  function OverBudgets(over: seq<Intent>): seq<RejectedIntent> {
    seq(|over|, k requires 0 <= k < |over| => RejectedIntent(over[k].id, OverBudget))
  }

  function Selected(intents: seq<Intent>, c: Settings, cap: int): seq<Intent> {
    var ranked := Ranked(Scored(intents, c));
    ranked[..Kept(|ranked|, cap)]
  }

  function Rejections(intents: seq<Intent>, c: Settings, cap: int): seq<RejectedIntent> {
    var ranked := Ranked(Scored(intents, c));
    Refused(intents, c) + OverBudgets(ranked[Kept(|ranked|, cap)..])
  }

  method SelectCalls(intents: seq<Intent>, budget: Budget, c: Settings, hardCap: Option<int>)
    returns (selected: seq<Intent>, rejected: seq<RejectedIntent>)
    ensures selected == Selected(intents, c, CapOf(budget, c.policy, hardCap))
    ensures rejected == Rejections(intents, c, CapOf(budget, c.policy, hardCap))
  {
    var cap := CapOf(budget, c.policy, hardCap);
    var scored: seq<Intent> := [];
    rejected := [];
    for k := 0 to |intents|
      invariant scored == Scored(intents[..k], c) && rejected == Refused(intents[..k], c)
    {
      var v := intents[k];
      assert intents[..k + 1][..k] == intents[..k];
      var block := BlockReason(v, c);
      if block.Some? {
        rejected := rejected + [RejectedIntent(v.id, block.value)];
      } else if v.factors.None? {
        rejected := rejected + [RejectedIntent(v.id, NoFactors)];
      } else if v.factors.value.redundancy >= REDUNDANT_THRESHOLD {
        rejected := rejected + [RejectedIntent(v.id, Redundant)];
      } else if Score(v, c) < c.minPriority {
        rejected := rejected + [RejectedIntent(v.id, BelowMinimum)];
      } else {
        scored := scored + [WithScore(v, c)];
      }
    }
    assert intents[..|intents|] == intents;
    scored := Ranked(scored);
    selected := scored[..Kept(|scored|, cap)];
    rejected := rejected + OverBudgets(scored[Kept(|scored|, cap)..]);
  }

  // ---------------------------------------------------------------- what it means

  lemma {:induction false} ScoredAre(intents: seq<Intent>, c: Settings, x: Intent)
    ensures x in Scored(intents, c) <==> exists v :: v in intents && Eligible(v, c) && x == WithScore(v, c)
  {
    if intents != [] {
      var rest, v := intents[..|intents| - 1], intents[|intents| - 1];
      assert intents == rest + [v];
      ScoredAre(rest, c, x);
    }
  }

  lemma {:induction false} RefusedAre(intents: seq<Intent>, c: Settings, r: RejectedIntent)
    ensures r in Refused(intents, c) <==>
        exists v :: v in intents && !Eligible(v, c) && r == RejectedIntent(v.id, Refusal(v, c).value)
  {
    if intents != [] {
      var rest, v := intents[..|intents| - 1], intents[|intents| - 1];
      assert intents == rest + [v];
      RefusedAre(rest, c, r);
    }
  }

  lemma {:induction false} Conserved(intents: seq<Intent>, c: Settings)
    ensures |Scored(intents, c)| + |Refused(intents, c)| == |intents|
  {
    if intents != [] {
      Conserved(intents[..|intents| - 1], c);
    }
  }

  lemma SameIntent(intents: seq<Intent>, a: Intent, b: Intent)
    requires DistinctIds(intents) && a in intents && b in intents && a.id == b.id
    ensures a == b
  {
    var i :| 0 <= i < |intents| && intents[i] == a;
    var j :| 0 <= j < |intents| && intents[j] == b;
  }

  lemma {:induction false} ScoredDistinct(intents: seq<Intent>, c: Settings)
    requires DistinctIds(intents)
    ensures Distinct(Scored(intents, c)) && IdsDiffer(Scored(intents, c))
  {
    if intents != [] {
      var rest, v := intents[..|intents| - 1], intents[|intents| - 1];
      assert intents == rest + [v];
      ScoredDistinct(rest, c);
      forall x | x in Scored(rest, c)
        ensures x.id != v.id
      {
        ScoredAre(rest, c, x);
        var u :| u in rest && Eligible(u, c) && x == WithScore(u, c);
        var i :| 0 <= i < |rest| && rest[i] == u;
        assert intents[i].id != intents[|rest|].id;
      }
    }
  }

  lemma {:induction false} RankedDistinct(s: seq<Intent>)
    requires Distinct(s)
    ensures Distinct(Ranked(s))
  {
    if s != [] {
      RankedDistinct(s[1..]);
      assert s[0] !in s[1..];
      InsertDistinct(s[0], Ranked(s[1..]));
    }
  }

  lemma {:induction false} InsertDistinct(v: Intent, ranked: seq<Intent>)
    requires Distinct(ranked) && v !in ranked
    ensures Distinct(Insert(v, ranked))
  {
    if ranked != [] && !Precedes(v, ranked[0]) {
      InsertDistinct(v, ranked[1..]);
      assert ranked[0] !in Insert(v, ranked[1..]);
    }
  }

  // Every intent lands in exactly one place: each that is eligible is ranked,
  // with its score, and either selected or over budget; each other one is
  // rejected for the reason it is not eligible. Nobody is lost or doubled.
  lemma SelectionPartitions(intents: seq<Intent>, c: Settings, cap: int)
    ensures |Selected(intents, c, cap)| + |Rejections(intents, c, cap)| == |intents|
    ensures forall v :: v in intents && Eligible(v, c) ==>
      WithScore(v, c) in Selected(intents, c, cap) || RejectedIntent(v.id, OverBudget) in Rejections(intents, c, cap)
    ensures forall v :: v in intents && !Eligible(v, c) ==>
        RejectedIntent(v.id, Refusal(v, c).value) in Rejections(intents, c, cap)
  {
    Conserved(intents, c);
    var ranked := Ranked(Scored(intents, c));
    var k := Kept(|ranked|, cap);
    forall v | v in intents && Eligible(v, c)
      ensures WithScore(v, c) in ranked[..k] || RejectedIntent(v.id, OverBudget) in OverBudgets(ranked[k..])
    {
      ScoredAre(intents, c, WithScore(v, c));
      var i :| 0 <= i < |ranked| && ranked[i] == WithScore(v, c);
      if i < k {
        assert ranked[..k][i] == WithScore(v, c);
      } else {
        assert OverBudgets(ranked[k..])[i - k] == RejectedIntent(v.id, OverBudget);
      }
    }
    forall v | v in intents && !Eligible(v, c)
      ensures RejectedIntent(v.id, Refusal(v, c).value) in Refused(intents, c)
    {
      RefusedAre(intents, c, RejectedIntent(v.id, Refusal(v, c).value));
    }
  }

  // No intent is both selected and rejected.
  lemma SelectedNotRejected(intents: seq<Intent>, c: Settings, cap: int, x: Intent, r: RejectedIntent)
    requires DistinctIds(intents) && x in Selected(intents, c, cap) && r in Rejections(intents, c, cap)
    ensures x.id != r.id
  {
    var ranked := Ranked(Scored(intents, c));
    var k := Kept(|ranked|, cap);
    var i :| 0 <= i < k && ranked[..k][i] == x;
    ScoredAre(intents, c, x);
    var v :| v in intents && Eligible(v, c) && x == WithScore(v, c);
    if r in Refused(intents, c) {
      RefusedAre(intents, c, r);
      var u :| u in intents && !Eligible(u, c) && r == RejectedIntent(u.id, Refusal(u, c).value);
      if u.id == v.id {
        SameIntent(intents, u, v);
      }
    } else {
      var j :| 0 <= j < |ranked[k..]| && OverBudgets(ranked[k..])[j] == r;
      ScoredDistinct(intents, c);
      RankedDistinct(Scored(intents, c));
      assert ranked[i] == x && ranked[k..][j] == ranked[k + j] && ranked[i] != ranked[k + j];
      assert ranked[i] in Scored(intents, c) && ranked[k + j] in Scored(intents, c);
    }
  }

  // The selected intents are the best: as many as the cap allows, in rank order,
  // each eligible, and none of them behind an eligible one left out.
  lemma SelectionIsBest(intents: seq<Intent>, c: Settings, cap: int)
    ensures var s := Selected(intents, c, cap);
      && InRank(s)
      && (forall x :: x in s ==> exists v :: v in intents && Eligible(v, c) && x == WithScore(v, c))
      && (forall x, v :: x in s && v in intents && Eligible(v, c) && WithScore(v, c) !in s ==>
          Precedes(x, WithScore(v, c)))
      && (cap >= 0 ==> |s| == if cap < |Scored(intents, c)| then cap else |Scored(intents, c)|)
  {
    var ranked := Ranked(Scored(intents, c));
    var s := Selected(intents, c, cap);
    RankedInRank(Scored(intents, c));
    forall x | x in s
      ensures exists v :: v in intents && Eligible(v, c) && x == WithScore(v, c)
    {
      assert x in ranked;
      ScoredAre(intents, c, x);
    }
    forall x, v | x in s && v in intents && Eligible(v, c) && WithScore(v, c) !in s
      ensures Precedes(x, WithScore(v, c))
    {
      ScoredAre(intents, c, WithScore(v, c));
      LeftOutIsBehind(ranked, |s|, x, WithScore(v, c));
    }
  }

  lemma LeftOutIsBehind(ranked: seq<Intent>, k: nat, x: Intent, y: Intent)
    requires k <= |ranked| && InRank(ranked) && x in ranked[..k] && y in ranked && y !in ranked[..k]
    ensures Precedes(x, y)
  {
    var i :| 0 <= i < k && ranked[..k][i] == x;
    var j :| 0 <= j < |ranked| && ranked[j] == y;
    forall t | 0 <= t < k
      ensures ranked[t] in ranked[..k]
    {
      assert ranked[..k][t] == ranked[t];
    }
  }

  // The order in which intents are proposed changes neither who is selected nor
  // the ranking, nor who is rejected and why.
  lemma OrderDoesNotMatter(a: seq<Intent>, b: seq<Intent>, c: Settings, cap: int)
    requires DistinctIds(a) && DistinctIds(b) && forall v :: v in a <==> v in b
    ensures Selected(a, c, cap) == Selected(b, c, cap)
    ensures forall r :: r in Rejections(a, c, cap) <==> r in Rejections(b, c, cap)
  {
    forall x
      ensures x in Scored(a, c) <==> x in Scored(b, c)
    {
      ScoredAre(a, c, x);
      ScoredAre(b, c, x);
    }
    SameRanking(Scored(a, c), Scored(b, c), a, b, c);
    forall r
      ensures r in Refused(a, c) <==> r in Refused(b, c)
    {
      RefusedAre(a, c, r);
      RefusedAre(b, c, r);
    }
  }

  lemma SameRanking(x: seq<Intent>, y: seq<Intent>, a: seq<Intent>, b: seq<Intent>, c: Settings)
    requires DistinctIds(a) && DistinctIds(b) && x == Scored(a, c) && y == Scored(b, c) &&
        forall v :: v in x <==> v in y
    ensures Ranked(x) == Ranked(y)
  {
    ScoredDistinct(a, c);
    ScoredDistinct(b, c);
    RankedDistinct(x);
    RankedDistinct(y);
    RankedInRank(x);
    RankedInRank(y);
    RankingUnique(Ranked(x), Ranked(y));
  }
}
