// The engine that owns the claims: every write path, as transactions on one store.
module EvidenceEngine {
  import opened Evidence
  import opened Graph
  import opened Models
  import opened Ordering

  datatype EngineError = MixedMissions | IdTaken | UnknownInput | NothingNamed | UnknownClaim | ReasonRequired

  type Groups = map<Key, seq<Claim>>

  function GroupOf(groups: Groups, key: Key): seq<Claim> {
    if key in groups then groups[key] else []
  }

  // The grouping lists every group of the mission, as the store has it.
  ghost predicate Grouped(groups: Groups, s: Store, mission: Id, t: Text) {
    forall key: Key :: key.missionId == mission ==> Lists(GroupOf(groups, key), s, key, t)
  }

  // ---------------------------------------------------------------- specification of each operation

  function NormalizedAll(batch: seq<Claim>, source: string, t: Text): (r: seq<Claim>)
    ensures |r| == |batch| && forall k :: 0 <= k < |batch| ==> r[k] == Normalized(batch[k], source, t)
  {
    seq(|batch|, k requires 0 <= k < |batch| => Normalized(batch[k], source, t))
  }

  predicate OneMission(batch: seq<Claim>) {
    forall j, k :: 0 <= j < |batch| && 0 <= k < |batch| ==> batch[j].missionId == batch[k].missionId
  }

  // What mark_stale is asked for: by age, or by a newer claim.
  datatype Cut = Cut(mission: Id, olderThan: Option<int>, newer: Option<Claim>, reason: string)

  predicate Outdated(c: Claim, cut: Cut, t: Text) {
    && c.missionId == cut.mission
    && Counts(c, t)
    && match cut.newer
       case Some(n) => c.id != n.id && GroupKey(c, t) == GroupKey(n, t) && c.sourceType == n.sourceType
           && c.timestamp <= n.timestamp
       case None => cut.olderThan.Some? && c.timestamp < cut.olderThan.value
  }

  function Why(cut: Cut, t: Text): string {
    if cut.reason != "" then cut.reason
    else match cut.newer
      case Some(n) => "superseded by claim " + n.id
      case None => if cut.olderThan.Some? then "older than " + t.isoformat(cut.olderThan.value) else ""
  }

  function Staled(c: Claim, cut: Cut, t: Text): Claim {
    MadeStale(c, Why(cut, t), if cut.newer.Some? then Some(cut.newer.value.id) else None)
  }

  // The store after the claims in `seen` were examined.
  ghost function CutAmong(s: Store, cut: Cut, seen: set<Id>, t: Text): Store {
    map i | i in s :: if i in seen && Outdated(s[i], cut, t) then Staled(s[i], cut, t) else s[i]
  }

  ghost function CutKeys(s: Store, cut: Cut, t: Text): set<Key> {
    set i | i in s && Outdated(s[i], cut, t) :: GroupKey(s[i], t)
  }

  ghost function MarkedStale(s: Store, cut: Cut, t: Text): Store {
    SettleKeys(CutAmong(s, cut, s.Keys, t), CutKeys(s, cut, t), t)
  }

  ghost function Refused(s: Store, id: Id, reason: string, t: Text): Store
    requires id in s
  {
    SettleKeys(s[id := Rejected(s[id], reason)], {GroupKey(s[id], t)}, t)
  }

  // ---------------------------------------------------------------- runs

  datatype Op =
    | Ingest(batch: seq<Claim>, source: string)
    | Derive(claim: Claim)
    | MarkStale(cut: Cut)
    | Reject(id: Id, reason: string)
    | Reconcile(key: Key)

  // Whether the operation goes through; if not, the store is left alone.
  ghost predicate Accepts(s: Store, op: Op, t: Text) {
    match op
    case Ingest(batch, source) => OneMission(batch) && FreshIds(s, NormalizedAll(batch, source, t))
    case Derive(c) => Derived(c, s) && c.id !in s && forall d :: d in c.derivedFrom ==> s[d].missionId == c.missionId
    case MarkStale(cut) =>
      && (cut.newer.Some? || cut.olderThan.Some?)
      && (cut.newer.Some? ==>
            && cut.newer.value.id in s && s[cut.newer.value.id] == cut.newer.value
            && cut.newer.value.missionId == cut.mission)
    case Reject(id, reason) => t.strip(reason) != "" && id in s
    case Reconcile(_) => true
  }

  ghost function Apply(s: Store, op: Op, t: Text): Store {
    if !Accepts(s, op, t) then s else
      match op
      case Ingest(batch, source) => Ingested(s, NormalizedAll(batch, source, t), t)
      case Derive(c) => s[c.id := c]
      case MarkStale(cut) => MarkedStale(s, cut, t)
      case Reject(id, reason) => Refused(s, id, reason, t)
      case Reconcile(key) => SettleKeys(s, {key}, t)
  }

  ghost function Run(ops: seq<Op>, t: Text): Store {
    if ops == [] then map[] else Apply(Run(ops[..|ops| - 1], t), ops[|ops| - 1], t)
  }

  lemma CutRetires(s: Store, cut: Cut, t: Text)
    ensures Retired(s, CutAmong(s, cut, s.Keys, t), CutKeys(s, cut, t), t)
  {
  }

  lemma RejectRetires(s: Store, id: Id, reason: string, t: Text)
    requires id in s
    ensures Retired(s, s[id := Rejected(s[id], reason)], {GroupKey(s[id], t)}, t)
  {
  }

  // Every operation keeps the store equal to its recomputation from scratch,
  // deletes nothing, changes no value and brings nothing back.
  lemma ApplyReconciles(s: Store, op: Op, t: Text)
    requires IdsMatch(s) && Reconciled(s, t)
    ensures var r := Apply(s, op, t); IdsMatch(r) && Reconciled(r, t) && Evolves(s, r)
  {
    if Accepts(s, op, t) {
      match op
      case Ingest(batch, source) =>
        IngestReconciles(s, NormalizedAll(batch, source, t), t);
      case Derive(c) =>
        DeriveReconciles(s, c, t);
      case MarkStale(cut) =>
        CutRetires(s, cut, t);
        RetireReconciles(s, CutAmong(s, cut, s.Keys, t), CutKeys(s, cut, t), t);
      case Reject(id, reason) =>
        RejectRetires(s, id, reason, t);
        RetireReconciles(s, s[id := Rejected(s[id], reason)], {GroupKey(s[id], t)}, t);
      case Reconcile(key) =>
        ReconcileIsIdempotent(s, {key}, t);
    }
  }

  lemma {:induction false} RunReconciled(ops: seq<Op>, t: Text)
    ensures IdsMatch(Run(ops, t)) && Reconciled(Run(ops, t), t)
  {
    if ops != [] {
      RunReconciled(ops[..|ops| - 1], t);
      ApplyReconciles(Run(ops[..|ops| - 1], t), ops[|ops| - 1], t);
    }
  }

  // After any run, recomputing any group from any listing of it finds nothing to do.
  lemma RunLeavesNothingToReconcile(ops: seq<Op>, claims: seq<Claim>, key: Key, t: Text)
    requires Lists(claims, Run(ops, t), key, t)
    ensures ReconcileGroup(claims, t) == []
  {
    RunReconciled(ops, t);
    NothingToReconcile(claims, Run(ops, t), key, t);
  }

  // Over a longer run no claim is lost, altered or revived.
  lemma {:induction false} RunEvolves(ops: seq<Op>, more: seq<Op>, t: Text)
    ensures Evolves(Run(ops, t), Run(ops + more, t))
    decreases |more|
  {
    if more == [] {
      assert ops + more == ops;
    } else {
      var fewer := more[..|more| - 1];
      RunEvolves(ops, fewer, t);
      assert (ops + more)[..|ops + more| - 1] == ops + fewer;
      RunReconciled(ops + fewer, t);
      ApplyReconciles(Run(ops + fewer, t), more[|more| - 1], t);
      EvolvesTransitive(Run(ops, t), Run(ops + fewer, t), Run(ops + more, t));
    }
  }

  // ---------------------------------------------------------------- lineage over runs

  // Producers hand over claims of their own; only derive inherits.
  ghost predicate OnlyObserved(op: Op) {
    op.Ingest? ==> forall c :: c in op.batch ==> Observed(c)
  }

  lemma {:induction false} EnteredLineage(s: Store, batch: seq<Claim>, t: Text)
    requires LineageOk(s) && FreshIds(s, batch) && forall c :: c in batch ==> Observed(c)
    ensures LineageOk(EnteredAll(s, batch, t))
  {
    if batch != [] {
      var rest, last := batch[..|batch| - 1], batch[|batch| - 1];
      assert batch == rest + [last];
      FreshPrefix(s, batch);
      EnteredLineage(s, rest, t);
      EnteredAllEvolves(s, rest, t);
      EnteredOneLineage(EnteredAll(s, rest, t), last, t);
    }
  }

  lemma EnteredOneLineage(s: Store, c: Claim, t: Text)
    requires LineageOk(s) && c.id !in s && Observed(c)
    ensures LineageOk(Entered(s, c, t))
  {
    var before := map i | i in s :: if Supersedes(c, s[i], t) then SupersededBy(s[i], c) else s[i];
    assert Evolves(s, before);
    LineageUntouched(s, before);
    AddKeepsLineage(before, c);
  }

  lemma NormalizedObserved(batch: seq<Claim>, source: string, t: Text)
    requires forall c :: c in batch ==> Observed(c)
    ensures forall c :: c in NormalizedAll(batch, source, t) ==> Observed(c)
  {
    forall k | 0 <= k < |batch|
      ensures Observed(NormalizedAll(batch, source, t)[k])
    {
      assert batch[k] in batch;
    }
  }

  lemma IngestKeepsLineage(s: Store, entering: seq<Claim>, t: Text)
    requires LineageOk(s) && FreshIds(s, entering) && forall c :: c in entering ==> Observed(c)
    ensures LineageOk(Ingested(s, entering, t))
  {
    EnteredLineage(s, entering, t);
    var e := EnteredAll(s, entering, t);
    SettleEvolves(e, TouchedKeys(entering, t), t);
    LineageUntouched(e, Ingested(s, entering, t));
  }

  lemma AcceptedIngestKeepsLineage(s: Store, batch: seq<Claim>, source: string, t: Text)
    requires LineageOk(s) && Accepts(s, Ingest(batch, source), t) && OnlyObserved(Ingest(batch, source))
    ensures LineageOk(Apply(s, Ingest(batch, source), t))
  {
    NormalizedObserved(batch, source, t);
    IngestKeepsLineage(s, NormalizedAll(batch, source, t), t);
  }

  lemma RetiringKeepsLineage(s: Store, op: Op, t: Text)
    requires IdsMatch(s) && Reconciled(s, t) && LineageOk(s) && !op.Ingest? && !op.Derive?
    ensures LineageOk(Apply(s, op, t))
  {
    ApplyReconciles(s, op, t);
    LineageUntouched(s, Apply(s, op, t));
  }

  lemma ApplyKeepsLineage(s: Store, op: Op, t: Text)
    requires IdsMatch(s) && Reconciled(s, t) && LineageOk(s) && OnlyObserved(op)
    ensures LineageOk(Apply(s, op, t))
  {
    if Accepts(s, op, t) {
      match op
      case Ingest(batch, source) => AcceptedIngestKeepsLineage(s, batch, source, t);
      case Derive(c) => AddKeepsLineage(s, c);
      case _ => RetiringKeepsLineage(s, op, t);
    }
  }

  lemma {:induction false} RunLineage(ops: seq<Op>, t: Text)
    requires forall op :: op in ops ==> OnlyObserved(op)
    ensures LineageOk(Run(ops, t))
  {
    if ops == [] {
      EmptyLineage();
    } else {
      RunLineage(ops[..|ops| - 1], t);
      RunReconciled(ops[..|ops| - 1], t);
      ApplyKeepsLineage(Run(ops[..|ops| - 1], t), ops[|ops| - 1], t);
    }
  }

  lemma EmptyLineage()
    ensures LineageOk(map[])
  {
    var e := Inputs(map[]);
    forall n
      ensures !Reaches(e, n, n)
    {
      if Reaches(e, n, n) {
        var d := FirstEdge(e, n, n);
      }
    }
  }

  // In every reachable store the badge says exactly whether a claim rests on
  // simulated evidence, and no later operation changes what it says.
  lemma RunFlags(ops: seq<Op>, more: seq<Op>, t: Text, i: Id)
    requires forall op :: op in ops + more ==> OnlyObserved(op)
    requires i in Run(ops, t)
    ensures Flagged(Run(ops, t)[i]) <==> ReachesSimulated(Run(ops, t), i)
    ensures i in Run(ops + more, t) && Flagged(Run(ops + more, t)[i]) == Flagged(Run(ops, t)[i])
  {
    forall op | op in ops
      ensures OnlyObserved(op)
    {
      assert op in ops + more;
    }
    RunLineage(ops, t);
    FlaggedIffSimulatedOrigin(Run(ops, t), i);
    RunEvolves(ops, more, t);
    assert SameContent(Run(ops, t)[i], Run(ops + more, t)[i]);
  }

  // ---------------------------------------------------------------- one live claim per source, over runs

  predicate SameSource(a: Claim, b: Claim, t: Text) {
    GroupKey(a, t) == GroupKey(b, t) && SourceKey(a, t) == SourceKey(b, t)
  }

  // Each source reports on a subject and predicate in time order.
  ghost predicate InOrder(s: Store, entering: seq<Claim>, t: Text) {
    && (forall i, k :: i in s && 0 <= k < |entering| && SameSource(s[i], entering[k], t) ==>
        s[i].timestamp <= entering[k].timestamp)
    && (forall j, k :: 0 <= j < k < |entering| && SameSource(entering[j], entering[k], t) ==>
        entering[j].timestamp <= entering[k].timestamp)
  }

  ghost predicate RunInOrder(ops: seq<Op>, t: Text) {
    ops != [] ==>
      var last := ops[|ops| - 1];
      && RunInOrder(ops[..|ops| - 1], t)
      && (last.Ingest? ==> InOrder(Run(ops[..|ops| - 1], t), NormalizedAll(last.batch, last.source, t), t))
  }

  // Every claim of the store came with s or with the batch, and says what it said then.
  ghost predicate CameFrom(s: Store, batch: seq<Claim>, c: Claim) {
    (c.id in s && SameContent(s[c.id], c)) || exists j :: 0 <= j < |batch| && SameContent(batch[j], c)
  }

  lemma {:induction false} EnteredCameFrom(s: Store, batch: seq<Claim>, t: Text, i: Id)
    requires IdsMatch(s) && FreshIds(s, batch) && i in EnteredAll(s, batch, t)
    ensures CameFrom(s, batch, EnteredAll(s, batch, t)[i])
  {
    if batch != [] {
      var rest, last := batch[..|batch| - 1], batch[|batch| - 1];
      FreshPrefix(s, batch);
      assert batch == rest + [last];
      var e := EnteredAll(s, rest, t);
      EnteredAllEvolves(s, rest, t);
      if i == last.id {
        assert batch[|batch| - 1] == last;
      } else {
        EnteredCameFrom(s, rest, t, i);
        EnteredKeepsContent(e, last, t, i);
        CameFromStill(s, rest, last, e[i], Entered(e, last, t)[i]);
      }
    }
  }

  lemma EnteredKeepsContent(s: Store, c: Claim, t: Text, i: Id)
    requires i in s && i != c.id
    ensures SameContent(s[i], Entered(s, c, t)[i])
  {
  }

  lemma CameFromStill(s: Store, rest: seq<Claim>, last: Claim, a: Claim, b: Claim)
    requires CameFrom(s, rest, a) && SameContent(a, b)
    ensures CameFrom(s, rest + [last], b)
  {
    if !(a.id in s && SameContent(s[a.id], a)) {
      var j :| 0 <= j < |rest| && SameContent(rest[j], a);
      assert (rest + [last])[j] == rest[j] && SameContent(rest[j], b);
    }
  }

  lemma {:induction false} EnteredOnePerSource(s: Store, batch: seq<Claim>, t: Text)
    requires IdsMatch(s) && FreshIds(s, batch) && OnePerSource(s, t) && InOrder(s, batch, t)
    ensures OnePerSource(EnteredAll(s, batch, t), t)
  {
    if batch != [] {
      var rest, last := batch[..|batch| - 1], batch[|batch| - 1];
      assert batch == rest + [last];
      FreshPrefix(s, batch);
      assert InOrder(s, rest, t);
      EnteredOnePerSource(s, rest, t);
      EnteredAllEvolves(s, rest, t);
      var e := EnteredAll(s, rest, t);
      forall i | i in e && Counts(e[i], t) && SameSource(e[i], last, t)
        ensures e[i].timestamp <= last.timestamp
      {
        EnteredCameFrom(s, rest, t, i);
        NotNewer(s, batch, e[i], t);
      }
      OnePerSourceIff(e, last, t);
    }
  }

  lemma NotNewer(s: Store, batch: seq<Claim>, c: Claim, t: Text)
    requires batch != [] && InOrder(s, batch, t) && CameFrom(s, batch[..|batch| - 1], c)
    requires SameSource(c, batch[|batch| - 1], t)
    ensures c.timestamp <= batch[|batch| - 1].timestamp
  {
    var last := |batch| - 1;
    if c.id in s && SameContent(s[c.id], c) {
      assert SameSource(s[c.id], batch[last], t);
    } else {
      var j :| 0 <= j < last && SameContent(batch[..last][j], c);
      assert SameSource(batch[j], batch[last], t);
    }
  }

  lemma ApplyOnePerSource(s: Store, op: Op, t: Text)
    requires IdsMatch(s) && Reconciled(s, t) && OnePerSource(s, t)
    requires op.Ingest? ==> InOrder(s, NormalizedAll(op.batch, op.source, t), t)
    ensures OnePerSource(Apply(s, op, t), t)
  {
    if Accepts(s, op, t) {
      match op
      case Ingest(batch, source) =>
        var entering := NormalizedAll(batch, source, t);
        EnteredOnePerSource(s, entering, t);
        var e := EnteredAll(s, entering, t);
        SettleEvolves(e, TouchedKeys(entering, t), t);
        OnePerSourceKept(e, Ingested(s, entering, t), t);
      case _ =>
        ApplyReconciles(s, op, t);
        OnePerSourceKept(s, Apply(s, op, t), t);
    }
  }

  // When every source reports in time order, each has at most one live claim
  // about a thing, so no source is ever in conflict with itself.
  lemma {:induction false} RunOnePerSource(ops: seq<Op>, t: Text)
    requires RunInOrder(ops, t)
    ensures OnePerSource(Run(ops, t), t)
  {
    if ops != [] {
      RunOnePerSource(ops[..|ops| - 1], t);
      RunReconciled(ops[..|ops| - 1], t);
      ApplyOnePerSource(Run(ops[..|ops| - 1], t), ops[|ops| - 1], t);
    }
  }

  lemma RunStatusMeaning(ops: seq<Op>, t: Text, a: Id)
    requires RunInOrder(ops, t) && a in Run(ops, t) && Counts(Run(ops, t)[a], t)
    ensures var s := Run(ops, t);
      && (s[a].status == CONFLICTED <==> SourcesDisagree(s, GroupKey(s[a], t), t))
      && (s[a].status == MULTI_SOURCE_SUPPORTED <==>
            |Members(s, GroupKey(s[a], t), t)| >= 2 && !Disagrees(s, GroupKey(s[a], t), t))
  {
    RunReconciled(ops, t);
    RunOnePerSource(ops, t);
    StatusMeaning(Run(ops, t), t, a);
  }

  // ---------------------------------------------------------------- listings

  ghost predicate ListsMission(claims: seq<Claim>, s: Store, mission: Id) {
    && Distinct(claims)
    && forall c :: c in claims <==> c.id in s && s[c.id] == c && c.missionId == mission
  }

  method ListByMission(s: Store, mission: Id) returns (claims: seq<Claim>)
    requires IdsMatch(s)
    ensures ListsMission(claims, s, mission)
  {
    claims := [];
    var todo := s.Keys;
    while todo != {}
      invariant todo <= s.Keys && Distinct(claims)
      invariant forall c :: c in claims <==> c.id in s.Keys - todo && s[c.id] == c && c.missionId == mission
      decreases |todo|
    {
      var i :| i in todo;
      todo := todo - {i};
      if s[i].missionId == mission {
        claims := claims + [s[i]];
      }
    }
  }

  lemma AppendKeepsListing(claims: seq<Claim>, s: Store, key: Key, c: Claim, t: Text)
    requires IdsMatch(s) && Lists(claims, s, key, t) && c.id !in s
    ensures Lists(if GroupKey(c, t) == key then claims + [c] else claims, s[c.id := c], key, t)
  {
    assert c !in claims;
  }

  // The group of a key holds exactly the listed claims with that key.
  ghost predicate GroupHolds(group: seq<Claim>, claims: seq<Claim>, key: Key, t: Text) {
    && Distinct(group)
    && forall c :: c in group <==> c in claims && GroupKey(c, t) == key
  }

  lemma GroupGrows(group: seq<Claim>, claims: seq<Claim>, key: Key, c: Claim, t: Text)
    requires GroupHolds(group, claims, key, t) && c !in claims
    ensures GroupHolds(if GroupKey(c, t) == key then group + [c] else group, claims + [c], key, t)
  {
  }

  method GroupClaims(claims: seq<Claim>, s: Store, mission: Id, t: Text) returns (groups: Groups)
    requires IdsMatch(s) && ListsMission(claims, s, mission)
    ensures Grouped(groups, s, mission, t)
  {
    groups := map[];
    for k := 0 to |claims|
      invariant forall key: Key :: GroupHolds(GroupOf(groups, key), claims[..k], key, t)
    {
      var c := claims[k];
      assert claims[..k + 1] == claims[..k] + [c];
      var grown := groups[GroupKey(c, t) := GroupOf(groups, GroupKey(c, t)) + [c]];
      forall key: Key
        ensures GroupHolds(GroupOf(grown, key), claims[..k + 1], key, t)
      {
        GroupGrows(GroupOf(groups, key), claims[..k], key, c, t);
      }
      groups := grown;
    }
    assert claims[..|claims|] == claims;
    forall key: Key | key.missionId == mission
      ensures Lists(GroupOf(groups, key), s, key, t)
    {
      assert GroupHolds(GroupOf(groups, key), claims, key, t);
    }
  }

  function Replace(claims: seq<Claim>, c: Claim): (r: seq<Claim>)
    ensures |r| == |claims| && forall k :: 0 <= k < |claims| ==> r[k] == if claims[k].id == c.id then c else claims[k]
  {
    seq(|claims|, k requires 0 <= k < |claims| => if claims[k].id == c.id then c else claims[k])
  }

  lemma ReplaceDistinct(claims: seq<Claim>, s: Store, c: Claim)
    requires Distinct(claims) && forall x :: x in claims ==> x.id in s && s[x.id] == x
    ensures Distinct(Replace(claims, c))
  {
    var r := Replace(claims, c);
    forall j, k | 0 <= j < k < |r|
      ensures r[j] != r[k]
    {
      assert claims[j] in claims && claims[k] in claims && claims[j].id != claims[k].id;
    }
  }

  lemma ReplaceHolds(claims: seq<Claim>, c: Claim, x: Claim)
    ensures x in Replace(claims, c)
        <==> (x in claims && x.id != c.id) || (x == c && exists y :: y in claims && y.id == c.id)
  {
    var r := Replace(claims, c);
    if x in claims && x.id != c.id {
      var k :| 0 <= k < |claims| && claims[k] == x;
      assert r[k] == x;
    }
    if x == c {
      if y :| y in claims && y.id == c.id {
        var k :| 0 <= k < |claims| && claims[k] == y;
        assert r[k] == x;
      }
    }
  }

  lemma ReplaceKeepsListing(claims: seq<Claim>, s: Store, key: Key, c: Claim, t: Text)
    requires IdsMatch(s) && Lists(claims, s, key, t) && c.id in s && GroupKey(s[c.id], t) == GroupKey(c, t)
    ensures Lists(if GroupKey(c, t) == key then Replace(claims, c) else claims, s[c.id := c], key, t)
  {
    if GroupKey(c, t) == key {
      ReplaceDistinct(claims, s, c);
      assert s[c.id] in claims;
      forall x: Claim
        ensures x in Replace(claims, c) <==> x.id in s && s[c.id := c][x.id] == x && GroupKey(x, t) == key
      {
        ReplaceHolds(claims, c, x);
      }
    }
  }

  // ---------------------------------------------------------------- writing reconciled copies

  function WithAll(s: Store, updates: seq<Claim>): Store {
    if updates == [] then s else WithAll(s, updates[..|updates| - 1])[updates[|updates| - 1].id :=
        updates[|updates| - 1]]
  }

  // What writing back the updates of a listed group must come to.
  ghost function Rewritten(s: Store, claims: seq<Claim>, judge: Claim -> Claim): Store {
    map i | i in s :: if i in IdsOf(claims) then judge(s[i]) else s[i]
  }

  lemma LastId(claims: seq<Claim>, s: Store)
    requires Distinct(claims) && claims != [] && forall c :: c in claims ==> c.id in s && s[c.id] == c
    ensures var rest, last := claims[..|claims| - 1], claims[|claims| - 1];
      && claims == rest + [last] && last.id in s && s[last.id] == last
      && IdsOf(claims) == IdsOf(rest) + {last.id} && last.id !in IdsOf(rest)
      && forall c :: c in rest ==> c.id in s && s[c.id] == c
  {
    var rest, last := claims[..|claims| - 1], claims[|claims| - 1];
    assert claims == rest + [last];
    forall c | c in rest
      ensures c in claims && c.id != last.id
    {
      assert last in claims;
    }
  }

  lemma WritingOne(s: Store, before: seq<Claim>, u: Claim)
    ensures WithAll(s, before + [u]) == WithAll(s, before)[u.id := u]
  {
    assert (before + [u])[..|before + [u]| - 1] == before;
  }

  // Writing the last update, or skipping it when it changes nothing, is one write.
  lemma UpdatesStep(s: Store, rest: seq<Claim>, last: Claim, judge: Claim -> Claim, m: Store)
    requires m == WithAll(s, Updates(rest, judge)) && last.id in m && m[last.id] == last && judge(last).id == last.id
    ensures WithAll(s, Updates(rest + [last], judge)) == m[last.id := judge(last)]
  {
    assert (rest + [last])[..|rest + [last]| - 1] == rest;
    if judge(last) == last {
      assert m[last.id := last] == m;
    } else {
      WritingOne(s, Updates(rest, judge), judge(last));
    }
  }

  lemma {:induction false} WritingUpdates(s: Store, claims: seq<Claim>, judge: Claim -> Claim)
    requires IdsMatch(s) && Distinct(claims) && forall c :: c in claims ==> c.id in s && s[c.id] == c
    requires forall c: Claim :: judge(c).id == c.id
    ensures WithAll(s, Updates(claims, judge)) == Rewritten(s, claims, judge)
  {
    if claims == [] {
      assert Rewritten(s, claims, judge) == s;
    } else {
      var rest, last := claims[..|claims| - 1], claims[|claims| - 1];
      LastId(claims, s);
      WritingUpdates(s, rest, judge);
      RewrittenOne(s, rest, last, judge);
      RewrittenKeys(s, rest, judge);
      UpdatesStep(s, rest, last, judge, Rewritten(s, rest, judge));
    }
  }

  lemma RewrittenOne(s: Store, rest: seq<Claim>, last: Claim, judge: Claim -> Claim)
    requires last.id in s && s[last.id] == last && last.id !in IdsOf(rest)
    requires IdsOf(rest + [last]) == IdsOf(rest) + {last.id}
    ensures Rewritten(s, rest + [last], judge) == Rewritten(s, rest, judge)[last.id := judge(last)]
    ensures Rewritten(s, rest, judge)[last.id] == last
  {
  }

  // The counted claims of a group not yet settled are still as they were.
  lemma NotYetSettled(s: Store, keys: set<Key>, key: Key, claims: seq<Claim>, t: Text)
    requires IdsMatch(s) && key !in keys && Lists(claims, s, key, t)
    ensures Distinct(ActiveOf(claims, t)) && IdsOf(ActiveOf(claims, t)) == Members(s, key, t)
    ensures forall c :: c in ActiveOf(claims, t) ==> c.id in s && SettleKeys(s, keys, t)[c.id] == c && s[c.id] == c
  {
    ListedMembers(claims, s, key, t);
    FilterDistinct(claims, (c: Claim) => Counts(c, t));
  }

  lemma RewrittenAt(s: Store, keys: set<Key>, key: Key, claims: seq<Claim>, t: Text, i: Id)
    requires IdsMatch(s) && key !in keys && Lists(claims, s, key, t) && i in s
    ensures var active := ActiveOf(claims, t);
      Rewritten(SettleKeys(s, keys, t), active, Judge(active, t))[i] == SettleKeys(s, keys + {key}, t)[i]
  {
    NotYetSettled(s, keys, key, claims, t);
    if i in Members(s, key, t) {
      ListedMembers(claims, s, key, t);
      VerdictIsWanted(claims, s, key, t, s[i]);
    }
  }

  lemma SameStore(a: Store, b: Store)
    requires a.Keys == b.Keys && forall i :: i in a ==> a[i] == b[i]
    ensures a == b
  {
  }

  lemma RewrittenKeys(r: Store, claims: seq<Claim>, judge: Claim -> Claim)
    ensures Rewritten(r, claims, judge).Keys == r.Keys
  {
  }

  lemma RewrittenSettles(s: Store, keys: set<Key>, key: Key, claims: seq<Claim>, t: Text)
    requires IdsMatch(s) && key !in keys && Lists(claims, s, key, t)
    ensures WithAll(SettleKeys(s, keys, t), ReconcileGroup(claims, t)) == SettleKeys(s, keys + {key}, t)
  {
    var r := SettleKeys(s, keys, t);
    var w := SettleKeys(s, keys + {key}, t);
    var active := ActiveOf(claims, t);
    NotYetSettled(s, keys, key, claims, t);
    SettleEvolves(s, keys, t);
    WritingUpdates(r, active, Judge(active, t));
    RewrittenKeys(r, active, Judge(active, t));
    assert r.Keys == s.Keys == w.Keys;
    forall i | i in s
      ensures Rewritten(r, active, Judge(active, t))[i] == w[i]
    {
      RewrittenAt(s, keys, key, claims, t, i);
    }
    SameStore(Rewritten(r, active, Judge(active, t)), w);
  }

  // u is the rewritten copy of some claim that needs rewriting.
  ghost predicate Rewrites(claims: seq<Claim>, judge: Claim -> Claim, u: Claim) {
    exists c :: c in claims && u == judge(c) && u != c
  }

  lemma RewritesSnoc(claims: seq<Claim>, last: Claim, judge: Claim -> Claim, u: Claim)
    ensures Rewrites(claims + [last], judge, u) <==>
      Rewrites(claims, judge, u) || (u == judge(last) && u != last)
  {
    assert last in claims + [last];
    if Rewrites(claims, judge, u) {
      var c :| c in claims && u == judge(c) && u != c;
      assert c in claims + [last];
    }
  }

  lemma {:induction false} UpdatesAre(claims: seq<Claim>, judge: Claim -> Claim, u: Claim)
    ensures u in Updates(claims, judge) <==> Rewrites(claims, judge, u)
  {
    if claims != [] {
      var rest, last := claims[..|claims| - 1], claims[|claims| - 1];
      assert claims == rest + [last];
      UpdatesAre(rest, judge, u);
      RewritesSnoc(rest, last, judge, u);
    }
  }

  // The claims a group's reconciliation rewrites are the ones settling changes.
  lemma UpdatesDiffer(s: Store, keys: set<Key>, key: Key, claims: seq<Claim>, t: Text, u: Claim)
    requires IdsMatch(s) && key in keys && Lists(claims, s, key, t)
    ensures u in ReconcileGroup(claims, t) <==>
      u.id in Members(s, key, t) && u != s[u.id] && u == SettleKeys(s, keys, t)[u.id]
  {
    var active := ActiveOf(claims, t);
    UpdatesAre(active, Judge(active, t), u);
    ListedMembers(claims, s, key, t);
    if u in ReconcileGroup(claims, t) {
      var c :| c in active && u == Judge(active, t)(c) && u != c;
      VerdictIsWanted(claims, s, key, t, c);
    }
    if u.id in Members(s, key, t) {
      VerdictIsWanted(claims, s, key, t, s[u.id]);
    }
  }

  // The list holds exactly the claims that differ between the two stores, as they now are.
  ghost predicate Changes(changed: seq<Claim>, s: Store, r: Store) {
    forall c :: c in changed <==> Changed(c, s, r)
  }

  ghost predicate Changed(c: Claim, s: Store, r: Store) {
    c.id in s && c.id in r && c == r[c.id] && c != s[c.id]
  }

  lemma ChangesGrow(changed: seq<Claim>, s: Store, keys: set<Key>, key: Key, claims: seq<Claim>, t: Text)
    requires IdsMatch(s) && key !in keys && Lists(claims, s, key, t)
    requires Changes(changed, s, SettleKeys(s, keys, t))
    ensures Changes(changed + ReconcileGroup(claims, t), s, SettleKeys(s, keys + {key}, t))
  {
    forall c: Claim
      ensures c in changed + ReconcileGroup(claims, t) <==> Changed(c, s, SettleKeys(s, keys + {key}, t))
    {
      ChangedGrow(s, keys, key, t, c);
      UpdatesDiffer(s, keys + {key}, key, claims, t, c);
      assert c in changed <==> Changed(c, s, SettleKeys(s, keys, t));
    }
  }

  lemma ChangedGrow(s: Store, keys: set<Key>, key: Key, t: Text, c: Claim)
    requires IdsMatch(s) && key !in keys
    ensures Changed(c, s, SettleKeys(s, keys + {key}, t)) <==>
      Changed(c, s, SettleKeys(s, keys, t))
      || (c.id in Members(s, key, t) && c != s[c.id] && c == SettleKeys(s, keys + {key}, t)[c.id])
  {
  }

  // Re-reconciles the groups under the given keys, in order, and returns the
  // claims it changed.
  method ReconcileGroups(s: Store, groups: Groups, keys: seq<Key>, ghost mission: Id, t: Text)
      returns (r: Store, changed: seq<Claim>)
    requires IdsMatch(s) && Grouped(groups, s, mission, t)
    requires Distinct(keys) && forall key :: key in keys ==> key.missionId == mission
    ensures r == SettleKeys(s, Elements(keys), t)
    ensures Changes(changed, s, r)
  {
    r, changed := s, [];
    SettleNone(s, t);
    for k := 0 to |keys|
      invariant r == SettleKeys(s, Elements(keys[..k]), t)
      invariant Changes(changed, s, r)
    {
      var updates := ReconcileGroup(GroupOf(groups, keys[k]), t);
      assert keys[k] in keys && keys[k] !in Elements(keys[..k]);
      RewrittenSettles(s, Elements(keys[..k]), keys[k], GroupOf(groups, keys[k]), t);
      ChangesGrow(changed, s, Elements(keys[..k]), keys[k], GroupOf(groups, keys[k]), t);
      assert Elements(keys[..k + 1]) == Elements(keys[..k]) + {keys[k]};
      r := WriteAll(r, updates);
      changed := changed + updates;
    }
    assert keys[..|keys|] == keys;
  }

  lemma SettleNone(s: Store, t: Text)
    ensures SettleKeys(s, {}, t) == s && SettleKeys(s, Elements([]), t) == s
  {
    assert Elements<Key>([]) == {};
  }

  method WriteAll(s: Store, updates: seq<Claim>) returns (r: Store)
    ensures r == WithAll(s, updates)
  {
    r := s;
    for k := 0 to |updates|
      invariant r == WithAll(s, updates[..k])
    {
      assert updates[..k + 1][..k] == updates[..k];
      r := r[updates[k].id := updates[k]];
    }
    assert updates[..|updates|] == updates;
  }

  // ---------------------------------------------------------------- superseding older claims

  // The store after the claims in `seen` were compared with the entering one.
  ghost function SupersededAmong(s: Store, c: Claim, seen: set<Id>, t: Text): Store {
    map i | i in s :: if i in seen && Supersedes(c, s[i], t) then SupersededBy(s[i], c) else s[i]
  }

  lemma SupersededOne(s: Store, c: Claim, seen: set<Id>, t: Text, older: Claim)
    requires older.id in s && s[older.id] == older && older.id !in seen
    ensures SupersededAmong(s, c, seen + {older.id}, t) ==
      if Supersedes(c, older, t) then SupersededAmong(s, c, seen, t)[older.id := SupersededBy(older, c)]
      else SupersededAmong(s, c, seen, t)
  {
  }

  lemma SupersededGroup(s: Store, c: Claim, olders: seq<Claim>, t: Text)
    requires IdsMatch(s) && Lists(olders, s, GroupKey(c, t), t)
    ensures SupersededAmong(s, c, IdsOf(olders), t) == SupersededAmong(s, c, s.Keys, t)
    ensures forall i :: i in s && Supersedes(c, s[i], t) ==> i in IdsOf(olders)
  {
    forall i | i in s && Supersedes(c, s[i], t)
      ensures i in IdsOf(olders)
    {
      assert s[i].id == i && s[i] in olders;
    }
  }

  lemma GroupsAfterWrite(groups: Groups, s: Store, mission: Id, c: Claim, t: Text)
    requires IdsMatch(s) && Grouped(groups, s, mission, t)
    requires c.id in s && GroupKey(s[c.id], t) == GroupKey(c, t) && c.missionId == mission
    ensures Grouped(groups[GroupKey(c, t) := Replace(GroupOf(groups, GroupKey(c, t)), c)], s[c.id := c], mission, t)
  {
    var after := groups[GroupKey(c, t) := Replace(GroupOf(groups, GroupKey(c, t)), c)];
    forall key: Key | key.missionId == mission
      ensures Lists(GroupOf(after, key), s[c.id := c], key, t)
    {
      ReplaceKeepsListing(GroupOf(groups, key), s, key, c, t);
    }
  }

  lemma GroupsAfterAdd(groups: Groups, s: Store, mission: Id, c: Claim, t: Text)
    requires IdsMatch(s) && Grouped(groups, s, mission, t) && c.id !in s && c.missionId == mission
    ensures Grouped(groups[GroupKey(c, t) := GroupOf(groups, GroupKey(c, t)) + [c]], s[c.id := c], mission, t)
  {
    var after := groups[GroupKey(c, t) := GroupOf(groups, GroupKey(c, t)) + [c]];
    forall key: Key | key.missionId == mission
      ensures Lists(GroupOf(after, key), s[c.id := c], key, t)
    {
      AppendKeepsListing(GroupOf(groups, key), s, key, c, t);
    }
  }

  predicate Overtaken(older: Claim, c: Claim, t: Text) {
    older.id != c.id && Active(older.status) && SourceKey(older, t) == SourceKey(c, t) && older.timestamp <= c.timestamp
  }

  // What the scan of a group does for one of its claims is what the definition says.
  lemma SupersedeTest(s: Store, c: Claim, t: Text, older: Claim)
    requires IsAttribute(c, t) && GroupKey(older, t) == GroupKey(c, t)
    ensures Supersedes(c, older, t) <==> Overtaken(older, c, t)
  {
  }

  lemma NextId(olders: seq<Claim>, s: Store, key: Key, t: Text, k: nat)
    requires IdsMatch(s) && Lists(olders, s, key, t) && k < |olders|
    ensures olders[k].id in s && s[olders[k].id] == olders[k] && GroupKey(olders[k], t) == key
    ensures olders[k].id !in IdsOf(olders[..k])
    ensures IdsOf(olders[..k + 1]) == IdsOf(olders[..k]) + {olders[k].id}
  {
    assert olders[k] in olders;
    assert olders[..k + 1] == olders[..k] + [olders[k]];
    forall c | c in olders[..k]
      ensures c.id != olders[k].id
    {
      assert c in olders && c != olders[k];
    }
  }

  // What the scan has come to before position k.
  ghost predicate ScannedTo(s: Store, c: Claim, olders: seq<Claim>, k: nat, r: Store, regrouped: Groups,
      stale: seq<Id>, t: Text)
    requires k <= |olders|
  {
    && r == SupersededAmong(s, c, IdsOf(olders[..k]), t) && IdsMatch(r)
    && Grouped(regrouped, r, c.missionId, t)
    && StaleAmong(s, c, IdsOf(olders[..k]), stale, t)
  }

  ghost predicate StaleAmong(s: Store, c: Claim, seen: set<Id>, stale: seq<Id>, t: Text) {
    forall i :: i in stale <==> i in seen && i in s && Supersedes(c, s[i], t)
  }

  lemma OneMoreStale(s: Store, c: Claim, seen: set<Id>, stale: seq<Id>, t: Text, i: Id)
    requires StaleAmong(s, c, seen, stale, t) && i in s && Supersedes(c, s[i], t)
    ensures StaleAmong(s, c, seen + {i}, stale + [i], t)
  {
  }

  lemma GroupsAfterSuperseding(groups: Groups, r: Store, c: Claim, older: Claim, t: Text)
    requires IdsMatch(r) && Grouped(groups, r, c.missionId, t)
    requires older.id in r && r[older.id] == older && GroupKey(older, t) == GroupKey(c, t)
    ensures var superseded := SupersededBy(older, c); var key := GroupKey(c, t);
      Grouped(groups[key := Replace(GroupOf(groups, key), superseded)], r[older.id := superseded], c.missionId, t)
  {
    GroupsAfterWrite(groups, r, c.missionId, SupersededBy(older, c), t);
  }

  lemma ScanSupersedesStore(s: Store, c: Claim, olders: seq<Claim>, k: nat, t: Text)
    requires IdsMatch(s) && Lists(olders, s, GroupKey(c, t), t) && k < |olders|
    requires IsAttribute(c, t) && Overtaken(olders[k], c, t)
    ensures olders[k].id in s && s[olders[k].id] == olders[k] && GroupKey(olders[k], t) == GroupKey(c, t)
    ensures olders[k].id !in IdsOf(olders[..k]) && Supersedes(c, olders[k], t)
    ensures IdsOf(olders[..k + 1]) == IdsOf(olders[..k]) + {olders[k].id}
    ensures SupersededAmong(s, c, IdsOf(olders[..k + 1]), t)
         == SupersededAmong(s, c, IdsOf(olders[..k]), t)[olders[k].id := SupersededBy(olders[k], c)]
  {
    NextId(olders, s, GroupKey(c, t), t, k);
    SupersededOne(s, c, IdsOf(olders[..k]), t, olders[k]);
    SupersedeTest(s, c, t, olders[k]);
  }

  lemma SupersededEntry(s: Store, c: Claim, ids: set<Id>, t: Text, i: Id)
    requires i in s && i !in ids
    ensures i in SupersededAmong(s, c, ids, t) && SupersededAmong(s, c, ids, t)[i] == s[i]
  {
  }

  lemma ScanSupersedes(s: Store, c: Claim, olders: seq<Claim>, k: nat, r: Store, regrouped: Groups, stale: seq<Id>,
      t: Text)
    requires IdsMatch(s) && Lists(olders, s, GroupKey(c, t), t) && k < |olders|
    requires IsAttribute(c, t) && ScannedTo(s, c, olders, k, r, regrouped, stale, t) && Overtaken(olders[k], c, t)
    ensures var superseded := SupersededBy(olders[k], c); var key := GroupKey(c, t);
      ScannedTo(s, c, olders, k + 1, r[olders[k].id := superseded],
                regrouped[key := Replace(GroupOf(regrouped, key), superseded)], stale + [olders[k].id], t)
  {
    ScanSupersedesStore(s, c, olders, k, t);
    SupersededEntry(s, c, IdsOf(olders[..k]), t, olders[k].id);
    GroupsAfterSuperseding(regrouped, r, c, olders[k], t);
    OneMoreStale(s, c, IdsOf(olders[..k]), stale, t, olders[k].id);
  }

  lemma ScanSkips(s: Store, c: Claim, olders: seq<Claim>, k: nat, r: Store, regrouped: Groups, stale: seq<Id>, t: Text)
    requires IdsMatch(s) && Lists(olders, s, GroupKey(c, t), t) && k < |olders|
    requires IsAttribute(c, t) && ScannedTo(s, c, olders, k, r, regrouped, stale, t) && !Overtaken(olders[k], c, t)
    ensures ScannedTo(s, c, olders, k + 1, r, regrouped, stale, t)
  {
    NextId(olders, s, GroupKey(c, t), t, k);
    SupersededOne(s, c, IdsOf(olders[..k]), t, olders[k]);
    SupersedeTest(s, c, t, olders[k]);
  }

  // A newer claim of the same source makes the older ones STALE.
  method SupersedeOlder(s: Store, groups: Groups, c: Claim, t: Text)
      returns (r: Store, regrouped: Groups, stale: seq<Id>)
    requires IdsMatch(s) && Grouped(groups, s, c.missionId, t)
    ensures r == SupersededAmong(s, c, s.Keys, t) && IdsMatch(r)
    ensures Grouped(regrouped, r, c.missionId, t)
    ensures forall i :: i in stale <==> i in s && Supersedes(c, s[i], t)
  {
    var key := GroupKey(c, t);
    r, regrouped, stale := s, groups, [];
    var olders := GroupOf(groups, key);
    assert Lists(olders, s, key, t);
    assert r == SupersededAmong(s, c, IdsOf(olders[..0]), t);
    if IsAttribute(c, t) {
      for k := 0 to |olders|
        invariant ScannedTo(s, c, olders, k, r, regrouped, stale, t)
      {
        var older := olders[k];
        if Overtaken(older, c, t) {
          ScanSupersedes(s, c, olders, k, r, regrouped, stale, t);
          var superseded := SupersededBy(older, c);
          r := r[older.id := superseded];
          regrouped := regrouped[key := Replace(GroupOf(regrouped, key), superseded)];
          stale := stale + [older.id];
        } else {
          ScanSkips(s, c, olders, k, r, regrouped, stale, t);
        }
      }
      assert olders[..|olders|] == olders;
    }
    SupersededGroup(s, c, olders, t);
  }

  // ---------------------------------------------------------------- the engine

  // What an ingest reports: every claim whose verdict changed, and the superseded ones.
  datatype IngestResult = IngestResult(reconciled: seq<Claim>, staleIds: seq<Id>)

  // The claims a batch superseded, while it entered.
  ghost function SupersededIds(s: Store, batch: seq<Claim>, t: Text): set<Id> {
    if batch == [] then {} else
      var rest, last := batch[..|batch| - 1], batch[|batch| - 1];
      var e := EnteredAll(s, rest, t);
      SupersededIds(s, rest, t) + Older(e, last, t)
  }

  ghost function Older(s: Store, c: Claim, t: Text): set<Id> {
    set i | i in s && Supersedes(c, s[i], t)
  }

  lemma EnteredStep(s: Store, batch: seq<Claim>, k: nat, t: Text)
    requires k < |batch|
    ensures EnteredAll(s, batch[..k + 1], t) == Entered(EnteredAll(s, batch[..k], t), batch[k], t)
    ensures SupersededIds(s, batch[..k + 1], t) == SupersededIds(s, batch[..k], t)
        + Older(EnteredAll(s, batch[..k], t), batch[k], t)
  {
    assert batch[..k + 1][..k] == batch[..k];
  }

  predicate IdUnused(s: Store, batch: seq<Claim>, k: nat)
    requires k < |batch|
  {
    batch[k].id !in s && forall j :: 0 <= j < k ==> batch[j].id != batch[k].id
  }

  lemma FreshStep(s: Store, batch: seq<Claim>, k: nat)
    requires k < |batch| && FreshIds(s, batch[..k])
    ensures IdUnused(s, batch, k) ==> FreshIds(s, batch[..k + 1])
    ensures FreshIds(s, batch) ==> IdUnused(s, batch, k)
  {
    var next := batch[..k + 1];
    assert batch[k] in batch;
    assert next == batch[..k] + [batch[k]];
  }

  lemma IdAvailable(s: Store, batch: seq<Claim>, k: nat, t: Text)
    requires k < |batch| && FreshIds(s, batch[..k])
    ensures batch[k].id !in EnteredAll(s, batch[..k], t) <==> IdUnused(s, batch, k)
  {
    EnteredAllEvolves(s, batch[..k], t);
    var ids := set c | c in batch[..k] :: c.id;
    if j :| 0 <= j < k && batch[j].id == batch[k].id {
      assert batch[..k][j] in batch[..k] && batch[k].id in ids;
    }
  }

  lemma TouchedStep(batch: seq<Claim>, k: nat, t: Text)
    requires k < |batch|
    ensures TouchedKeys(batch[..k + 1], t) == TouchedKeys(batch[..k], t) + {GroupKey(batch[k], t)}
  {
    assert batch[..k + 1] == batch[..k] + [batch[k]];
  }

  method AddKey(keys: seq<Key>, key: Key) returns (r: seq<Key>)
    requires Distinct(keys)
    ensures Distinct(r) && Elements(r) == Elements(keys) + {key}
  {
    r := if key in keys then keys else keys + [key];
  }

  lemma EnteredIs(s: Store, c: Claim, t: Text)
    ensures SupersededAmong(s, c, s.Keys, t)[c.id := c] == Entered(s, c, t)
    ensures SupersededAmong(s, c, s.Keys, t).Keys == s.Keys
  {
  }

  lemma OlderIs(s: Store, c: Claim, t: Text, stale: seq<Id>)
    requires forall i :: i in stale <==> i in s && Supersedes(c, s[i], t)
    ensures Elements(stale) == Older(s, c, t)
  {
  }

  // One claim enters, unless its id is taken.
  method EnterOne(s: Store, groups: Groups, c: Claim, t: Text)
      returns (ok: bool, r: Store, regrouped: Groups, stale: seq<Id>)
    requires IdsMatch(s) && Grouped(groups, s, c.missionId, t)
    ensures ok <==> c.id !in s
    ensures ok ==>
        && r == Entered(s, c, t) && IdsMatch(r) && Grouped(regrouped, r, c.missionId, t)
        && Elements(stale) == Older(s, c, t)
  {
    r, regrouped, stale := SupersedeOlder(s, groups, c, t);
    EnteredIs(s, c, t);
    OlderIs(s, c, t, stale);
    ok := c.id !in r;
    if ok {
      GroupsAfterAdd(regrouped, r, c.missionId, c, t);
      regrouped := regrouped[GroupKey(c, t) := GroupOf(regrouped, GroupKey(c, t)) + [c]];
      r := r[c.id := c];
    }
  }

  method EnterBatch(s: Store, groups: Groups, batch: seq<Claim>, mission: Id, t: Text)
    returns (ok: bool, r: Store, regrouped: Groups, touched: seq<Key>, stale: seq<Id>)
    requires IdsMatch(s) && Grouped(groups, s, mission, t) && forall c :: c in batch ==> c.missionId == mission
    ensures ok <==> FreshIds(s, batch)
    ensures ok ==> r == EnteredAll(s, batch, t) && IdsMatch(r) && Grouped(regrouped, r, mission, t)
    ensures ok ==> Distinct(touched) && Elements(touched) == TouchedKeys(batch, t)
    ensures ok ==> Elements(stale) == SupersededIds(s, batch, t)
  {
    ok, r, regrouped, touched, stale := true, s, groups, [], [];
    for k := 0 to |batch|
      invariant ok && IdsMatch(r) && FreshIds(s, batch[..k])
      invariant r == EnteredAll(s, batch[..k], t) && Grouped(regrouped, r, mission, t)
      invariant Distinct(touched) && Elements(touched) == TouchedKeys(batch[..k], t)
      invariant Elements(stale) == SupersededIds(s, batch[..k], t)
    {
      assert batch[k] in batch;
      TouchedStep(batch, k, t);
      EnteredStep(s, batch, k, t);
      FreshStep(s, batch, k);
      IdAvailable(s, batch, k, t);
      touched := AddKey(touched, GroupKey(batch[k], t));
      var older;
      ok, r, regrouped, older := EnterOne(r, regrouped, batch[k], t);
      if !ok {
        return;
      }
      ElementsJoin(stale, older);
      stale := stale + older;
    }
    assert batch[..|batch|] == batch;
  }

  lemma TouchedInMission(batch: seq<Claim>, mission: Id, t: Text)
    requires forall c :: c in batch ==> c.missionId == mission
    ensures forall key :: key in TouchedKeys(batch, t) ==> key.missionId == mission
  {
  }

  // ---------------------------------------------------------------- retiring claims

  function CutFor(s: Store, mission: Id, olderThan: Option<int>, supersededBy: Option<Id>, reason: string): Cut
    requires supersededBy.Some? ==> supersededBy.value in s
  {
    Cut(mission, olderThan, if supersededBy.Some? then Some(s[supersededBy.value]) else None, reason)
  }

  lemma CutOne(s: Store, cut: Cut, seen: set<Id>, t: Text, c: Claim)
    requires c.id in s && s[c.id] == c && c.id !in seen
    ensures CutAmong(s, cut, seen + {c.id}, t) ==
      if Outdated(c, cut, t) then CutAmong(s, cut, seen, t)[c.id := Staled(c, cut, t)] else CutAmong(s, cut, seen, t)
  {
  }

  lemma CutMission(s: Store, cut: Cut, listed: seq<Claim>, t: Text)
    requires IdsMatch(s) && ListsMission(listed, s, cut.mission)
    ensures CutAmong(s, cut, IdsOf(listed), t) == CutAmong(s, cut, s.Keys, t)
    ensures CutKeys(s, cut, t) == set c | c in listed && Outdated(c, cut, t) :: GroupKey(c, t)
    ensures IdsMatch(CutAmong(s, cut, s.Keys, t))
  {
    forall i | i in s && Outdated(s[i], cut, t)
      ensures i in IdsOf(listed) && s[i] in listed
    {
      assert s[i].id == i && s[i] in listed;
    }
  }

  lemma NextListed(listed: seq<Claim>, s: Store, mission: Id, k: nat)
    requires IdsMatch(s) && ListsMission(listed, s, mission) && k < |listed|
    ensures listed[k].id in s && s[listed[k].id] == listed[k] && listed[k].missionId == mission
    ensures listed[k].id !in IdsOf(listed[..k])
    ensures IdsOf(listed[..k + 1]) == IdsOf(listed[..k]) + {listed[k].id}
  {
    assert listed[k] in listed;
    assert listed[..k + 1] == listed[..k] + [listed[k]];
    forall c | c in listed[..k]
      ensures c.id != listed[k].id
    {
      assert c in listed && c != listed[k];
    }
  }

  ghost function TouchedBy(listed: seq<Claim>, cut: Cut, t: Text): set<Key> {
    set c | c in listed && Outdated(c, cut, t) :: GroupKey(c, t)
  }

  lemma TouchedNext(listed: seq<Claim>, k: nat, cut: Cut, t: Text)
    requires k < |listed|
    ensures TouchedBy(listed[..k + 1], cut, t) ==
      TouchedBy(listed[..k], cut, t) + if Outdated(listed[k], cut, t) then {GroupKey(listed[k], t)} else {}
  {
    assert listed[..k + 1] == listed[..k] + [listed[k]];
  }

  // The claims a cut retires, as they now are.
  ghost predicate Retirees(stale: seq<Claim>, listed: seq<Claim>, cut: Cut, t: Text) {
    forall u :: u in stale <==> exists c :: c in listed && Outdated(c, cut, t) && u == Staled(c, cut, t)
  }

  lemma RetireesNext(stale: seq<Claim>, listed: seq<Claim>, k: nat, cut: Cut, t: Text)
    requires k < |listed| && Retirees(stale, listed[..k], cut, t)
    ensures Retirees(if Outdated(listed[k], cut, t) then stale + [Staled(listed[k], cut, t)]
        else stale, listed[..k + 1], cut, t)
  {
    assert listed[..k + 1] == listed[..k] + [listed[k]];
  }

  // Marks the outdated claims of a mission's listing.
  method CutAll(s: Store, listed: seq<Claim>, cut: Cut, t: Text)
      returns (r: Store, stale: seq<Claim>, touched: seq<Key>)
    requires IdsMatch(s) && ListsMission(listed, s, cut.mission)
    ensures r == CutAmong(s, cut, s.Keys, t) && IdsMatch(r)
    ensures Distinct(touched) && Elements(touched) == CutKeys(s, cut, t)
    ensures Retirees(stale, listed, cut, t)
  {
    r, stale, touched := s, [], [];
    assert CutAmong(s, cut, IdsOf(listed[..0]), t) == s;
    for k := 0 to |listed|
      invariant r == CutAmong(s, cut, IdsOf(listed[..k]), t)
      invariant Distinct(touched) && Elements(touched) == TouchedBy(listed[..k], cut, t)
      invariant Retirees(stale, listed[..k], cut, t)
    {
      var c := listed[k];
      NextListed(listed, s, cut.mission, k);
      CutOne(s, cut, IdsOf(listed[..k]), t, c);
      TouchedNext(listed, k, cut, t);
      RetireesNext(stale, listed, k, cut, t);
      if Outdated(c, cut, t) {
        r := r[c.id := Staled(c, cut, t)];
        stale := stale + [Staled(c, cut, t)];
        touched := AddKey(touched, GroupKey(c, t));
      }
    }
    assert listed[..|listed|] == listed;
    CutMission(s, cut, listed, t);
  }

  lemma CutKeysInMission(s: Store, cut: Cut, t: Text)
    ensures forall key :: key in CutKeys(s, cut, t) ==> key.missionId == cut.mission
  {
  }

  // Picks one group out of a mission's listing.
  lemma PickGroup(listed: seq<Claim>, s: Store, key: Key, t: Text)
    requires ListsMission(listed, s, key.missionId)
    ensures Lists(Filter(listed, (c: Claim) => GroupKey(c, t) == key), s, key, t)
  {
    FilterDistinct(listed, (c: Claim) => GroupKey(c, t) == key);
  }

  // Re-reconciles a single group.
  method ReconcileOne(s: Store, key: Key, t: Text) returns (r: Store, group: seq<Claim>)
    requires IdsMatch(s)
    ensures r == SettleKeys(s, {key}, t) && Lists(group, s, key, t)
  {
    var listed := ListByMission(s, key.missionId);
    PickGroup(listed, s, key, t);
    group := Filter(listed, (c: Claim) => GroupKey(c, t) == key);
    SettleNone(s, t);
    RewrittenSettles(s, {}, key, group, t);
    assert {} + {key} == {key};
    r := WriteAll(s, ReconcileGroup(group, t));
  }

  class EvidenceEngine {
    var claims: Store
    const text: Text

    // Statuses and links are exactly what recomputing every group would give.
    ghost predicate Valid()
      reads this
    {
      IdsMatch(claims) && Reconciled(claims, text)
    }

    constructor (text: Text)
      ensures Valid() && claims == map[] && this.text == text
    {
      claims := map[];
      this.text := text;
    }

    method Ingest(batch: seq<Claim>, source: string) returns (r: Result<IngestResult, EngineError>)
      requires Valid()
      modifies this
      ensures Valid() && Evolves(old(claims), claims)
      ensures claims == Apply(old(claims), Op.Ingest(batch, source), text)
      ensures r.Ok? <==> Accepts(old(claims), Op.Ingest(batch, source), text)
      ensures r.Ok? ==>
        && Changes(r.value.reconciled, EnteredAll(old(claims), NormalizedAll(batch, source, text), text), claims)
        && Elements(r.value.staleIds) == SupersededIds(old(claims), NormalizedAll(batch, source, text), text)
    {
      ApplyReconciles(claims, Op.Ingest(batch, source), text);
      var normalized := NormalizedAll(batch, source, text);
      if batch == [] {
        SettleNone(claims, text);
        assert TouchedKeys(normalized, text) == {};
        assert Elements<Id>([]) == {};
        return Ok(IngestResult([], []));
      }
      if exists k :: 0 <= k < |batch| && batch[k].missionId != batch[0].missionId {
        return Err(MixedMissions);
      }
      var mission := batch[0].missionId;
      var existing := ListByMission(claims, mission);
      var groups := GroupClaims(existing, claims, mission, text);
      var ok, store, regrouped, touched, staleIds := EnterBatch(claims, groups, normalized, mission, text);
      if !ok {
        return Err(IdTaken);
      }
      TouchedInMission(normalized, mission, text);
      var reconciled;
      store, reconciled := ReconcileGroups(store, regrouped, touched, mission, text);
      claims := store;
      r := Ok(IngestResult(reconciled, staleIds));
    }

    method Derive(id: Id, mission: Id, subject: string, attribute: string, value: Json, derivedFrom: seq<Id>,
                  sourceReference: string, now: int) returns (r: Result<Claim, EngineError>)
      requires Valid()
      modifies this
      ensures Valid() && Evolves(old(claims), claims)
      ensures r.Ok? <==> id !in old(claims) && forall d :: d in derivedFrom ==>
          d in old(claims) && old(claims)[d].missionId == mission
      ensures r.Ok? ==>
        && Derived(r.value, old(claims)) && r.value.derivedFrom == derivedFrom && r.value.id == id
        && r.value.missionId == mission && r.value.subject == text.normSubject(subject)
            && r.value.attribute == text.normPredicate(attribute)
        && r.value.value == value && claims == Apply(old(claims), Op.Derive(r.value), text)
            == old(claims)[id := r.value]
      ensures r.Err? ==> claims == old(claims)
    {
      var simulated := false;
      for k := 0 to |derivedFrom|
        invariant forall j :: 0 <= j < k ==> derivedFrom[j] in claims && claims[derivedFrom[j]].missionId == mission
        invariant simulated <==> exists j :: 0 <= j < k && Flagged(claims[derivedFrom[j]])
        invariant claims == old(claims)
      {
        if derivedFrom[k] !in claims || claims[derivedFrom[k]].missionId != mission {
          return Err(UnknownInput);
        }
        simulated := simulated || Flagged(claims[derivedFrom[k]]);
      }
      if id in claims {
        return Err(IdTaken);
      }
      var c := Claim(id, mission, text.normSubject(subject), text.normPredicate(attribute), value, DERIVED,
                     sourceReference, now, UNKNOWN, [], derivedFrom, simulated, None, None);
      DeriveReconciles(claims, c, text);
      claims := claims[id := c];
      r := Ok(c);
    }

    method MarkStale(mission: Id, olderThan: Option<int>, supersededBy: Option<Id>, reason: string)
        returns (r: Result<seq<Claim>, EngineError>)
      requires Valid()
      modifies this
      ensures Valid() && Evolves(old(claims), claims)
      ensures r.Ok? <==>
        && (olderThan.Some? || supersededBy.Some?)
        && (supersededBy.Some? ==>
            supersededBy.value in old(claims) && old(claims)[supersededBy.value].missionId == mission)
      ensures r.Ok? ==> claims == MarkedStale(old(claims),
          CutFor(old(claims), mission, olderThan, supersededBy, reason), text)
      ensures r.Ok? ==> exists listed :: ListsMission(listed, old(claims), mission)
                                         && Retirees(r.value, listed, CutFor(old(claims), mission, olderThan,
                                             supersededBy, reason), text)
      ensures r.Err? ==> claims == old(claims)
    {
      if olderThan.None? && supersededBy.None? {
        return Err(NothingNamed);
      }
      if supersededBy.Some? && (supersededBy.value !in claims || claims[supersededBy.value].missionId != mission) {
        return Err(UnknownClaim);
      }
      var cut := CutFor(claims, mission, olderThan, supersededBy, reason);
      CutRetires(claims, cut, text);
      RetireReconciles(claims, CutAmong(claims, cut, claims.Keys, text), CutKeys(claims, cut, text), text);
      CutKeysInMission(claims, cut, text);
      var listed := ListByMission(claims, mission);
      var store, stale, touched := CutAll(claims, listed, cut, text);
      if touched != [] {
        var again := ListByMission(store, mission);
        var groups := GroupClaims(again, store, mission, text);
        var changed;
        store, changed := ReconcileGroups(store, groups, touched, mission, text);
      } else {
        SettleNone(store, text);
      }
      claims := store;
      r := Ok(stale);
    }

    method Reject(claimId: Id, reason: string) returns (r: Result<Claim, EngineError>)
      requires Valid()
      modifies this
      ensures Valid() && Evolves(old(claims), claims)
      ensures r.Ok? <==> Accepts(old(claims), Op.Reject(claimId, reason), text)
      ensures claims == Apply(old(claims), Op.Reject(claimId, reason), text)
      ensures r.Ok? ==> r.value == Rejected(old(claims)[claimId], reason)
    {
      if text.strip(reason) == "" {
        return Err(ReasonRequired);
      }
      if claimId !in claims {
        return Err(UnknownClaim);
      }
      ApplyReconciles(claims, Op.Reject(claimId, reason), text);
      var rejected := Rejected(claims[claimId], reason);
      var store := claims[claimId := rejected];
      var group;
      claims, group := ReconcileOne(store, GroupKey(rejected, text), text);
      r := Ok(rejected);
    }

    // Asking for a reconciliation is always a no-op: the store already is reconciled.
    method Reconcile(mission: Id, subject: string, attribute: string) returns (group: seq<Claim>)
      requires Valid()
      modifies this
      ensures Valid() && claims == old(claims)
      ensures Lists(group, claims, Key(mission, text.lower(text.normSubject(subject)), text.normPredicate(attribute)),
          text)
    {
      var key := Key(mission, text.lower(text.normSubject(subject)), text.normPredicate(attribute));
      ReconcileIsIdempotent(claims, {key}, text);
      claims, group := ReconcileOne(claims, key, text);
    }
  }
}
