// Bringing an over-sized team down to the cap without orphaning anybody.
module Truncation {
  import opened Models
  import opened Ordering
  import opened Graph

  function NotNamed(id: Id): AgentSpec -> bool {
    (s: AgentSpec) => s.id != id
  }

  function NotIn(gone: seq<AgentSpec>): AgentSpec -> bool {
    (s: AgentSpec) => s !in gone
  }

  function Without(specs: seq<AgentSpec>, id: Id): seq<AgentSpec> {
    Filter(specs, NotNamed(id))
  }

  function Minus(specs: seq<AgentSpec>, gone: seq<AgentSpec>): seq<AgentSpec> {
    Filter(specs, NotIn(gone))
  }

  function StripDependency(spec: AgentSpec, id: Id): AgentSpec {
    if id in spec.dependencies
    then spec.(dependencies := Filter(spec.dependencies, d => d != id))
    else spec
  }

  ghost predicate Dependent(specs: seq<AgentSpec>, id: Id) {
    exists i :: 0 <= i < |specs| && id in specs[i].dependencies
  }

  // v is the last-listed spec that no spec of the list depends on.
  ghost predicate LastLeaf(specs: seq<AgentSpec>, v: AgentSpec) {
    exists i :: 0 <= i < |specs| && specs[i] == v && !Dependent(specs, v.id)
      && forall j :: i < j < |specs| ==> Dependent(specs, specs[j].id)
  }

  // Each dropped spec was the last-listed leaf of what was left before it.
  ghost predicate DroppedLeaves(specs: seq<AgentSpec>, dropped: seq<AgentSpec>) {
    && Distinct(dropped)
    && (forall v :: v in dropped ==> v in specs)
    && forall k :: 0 <= k < |dropped| ==> LastLeaf(Minus(specs, dropped[..k]), dropped[k])
  }

  // On a closed DAG the specs that stay are untouched and in their original
  // order, and they still form a closed DAG.
  ghost predicate TruncatedTo(specs: seq<AgentSpec>, kept: seq<AgentSpec>, dropped: seq<AgentSpec>) {
    StrictOk(kept) && kept == Minus(specs, dropped) && DroppedLeaves(specs, dropped)
  }

  method TruncateToCap(specs: seq<AgentSpec>, cap: nat) returns (kept: seq<AgentSpec>, dropped: seq<AgentSpec>)
    requires UniqueIds(specs)
    ensures |kept| == if |specs| <= cap then |specs| else cap
    ensures |kept| + |dropped| == |specs|
    ensures UniqueIds(kept)
    ensures StrictOk(specs) ==> TruncatedTo(specs, kept, dropped)
  {
    kept := specs;
    dropped := [];
    FilterAll(specs, NotIn([]));
    while |kept| > cap
      invariant |kept| == |specs| || |kept| >= cap
      invariant |kept| + |dropped| == |specs|
      invariant UniqueIds(kept)
      invariant StrictOk(specs) ==> TruncatedTo(specs, kept, dropped)
      decreases |kept|
    {
      ghost var before := kept;
      var victim;
      victim, kept := DropOne(kept);
      if StrictOk(specs) {
        DropStep(specs, before, dropped, victim);
      }
      dropped := dropped + [victim];
    }
  }

  method DropOne(kept: seq<AgentSpec>) returns (victim: AgentSpec, rest: seq<AgentSpec>)
    requires UniqueIds(kept) && |kept| > 0
    ensures |rest| == |kept| - 1 && UniqueIds(rest)
    ensures StrictOk(kept) ==> LastLeaf(kept, victim) && rest == Without(kept, victim.id)
  {
    var built := BuildGraph(kept, false);
    victim := PickVictim(kept, built.value);
    rest := Without(kept, victim.id);
    WithoutShrinks(kept, victim);
    if StrictOk(kept) {
      NothingStripped(kept, victim);
    }
    rest := StripAll(rest, victim.id);
  }

  method PickVictim(kept: seq<AgentSpec>, g: DependencyGraph) returns (victim: AgentSpec)
    requires UniqueIds(kept) && |kept| > 0 && g.nodes == Ids(kept)
    requires g.edges == EdgesOf(kept) && Converse(g.edges, g.reverse)
    ensures victim in kept
    ensures StrictOk(kept) ==> LastLeaf(kept, victim)
  {
    var leaves := Leaves(g);
    var victimId := if leaves != [] then leaves[|leaves| - 1] else kept[|kept| - 1].id;
    VictimListed(kept, g, victimId);
    var at := 0;
    while kept[at].id != victimId
      invariant at < |kept|
      invariant exists k :: at <= k < |kept| && kept[k].id == victimId
      decreases |kept| - at
    {
      at := at + 1;
    }
    victim := kept[at];
    if StrictOk(kept) {
      VictimIsLastLeaf(kept, g, victim);
    }
  }

  // The loop that rewrites the specs still naming a dropped one.
  method StripAll(specs: seq<AgentSpec>, victimId: Id) returns (kept: seq<AgentSpec>)
    requires UniqueIds(specs)
    ensures |kept| == |specs| && UniqueIds(kept)
    ensures forall k :: 0 <= k < |kept| ==> kept[k] == StripDependency(specs[k], victimId)
    ensures !Dependent(specs, victimId) ==> kept == specs
  {
    kept := specs;
    for index := 0 to |kept|
      invariant |kept| == |specs|
      invariant forall k :: 0 <= k < index ==> kept[k] == StripDependency(specs[k], victimId)
      invariant forall k :: index <= k < |kept| ==> kept[k] == specs[k]
    {
      kept := kept[index := StripDependency(kept[index], victimId)];
    }
  }

  lemma DropStep(specs: seq<AgentSpec>, before: seq<AgentSpec>, dropped: seq<AgentSpec>, victim: AgentSpec)
    requires UniqueIds(specs) && TruncatedTo(specs, before, dropped) && LastLeaf(before, victim)
    ensures TruncatedTo(specs, Without(before, victim.id), dropped + [victim])
  {
    WithoutKeepsStrict(before, victim);
    MinusSnoc(specs, dropped, victim);
    var longer := dropped + [victim];
    forall k | 0 <= k < |longer|
      ensures LastLeaf(Minus(specs, longer[..k]), longer[k])
    {
      assert longer[..k] == dropped[..k];
      assert dropped[..|dropped|] == dropped;
    }
  }

  lemma VictimListed(kept: seq<AgentSpec>, g: DependencyGraph, victimId: Id)
    requires UniqueIds(kept) && |kept| > 0 && g.nodes == Ids(kept)
    requires var leaves := Leaves(g); victimId == if leaves != [] then leaves[|leaves| - 1] else kept[|kept| - 1].id
    ensures exists at :: 0 <= at < |kept| && kept[at].id == victimId
  {
    var leaves := Leaves(g);
    if leaves != [] {
      assert leaves[|leaves| - 1] in leaves;
      assert victimId in g.nodes;
      var k :| 0 <= k < |g.nodes| && g.nodes[k] == victimId;
      assert kept[k].id == victimId;
    }
  }

  lemma SpecsDistinct(specs: seq<AgentSpec>)
    requires UniqueIds(specs)
    ensures Distinct(specs)
  {
  }

  lemma WithoutShrinks(specs: seq<AgentSpec>, victim: AgentSpec)
    requires UniqueIds(specs) && victim in specs
    ensures |Without(specs, victim.id)| == |specs| - 1
    ensures UniqueIds(Without(specs, victim.id))
  {
    SpecsDistinct(specs);
    FilterOne(specs, victim, NotNamed(victim.id));
    FilterUnique(specs, NotNamed(victim.id));
  }

  lemma DependentsAreEdges(specs: seq<AgentSpec>, g: DependencyGraph, n: Id)
    requires StrictOk(specs) && g.edges == EdgesOf(specs) && Converse(g.edges, g.reverse)
    requires n in IdSet(specs)
    ensures Deps(g.reverse, n) != {} <==> Dependent(specs, n)
    ensures Deps(g.reverse, n) <= IdSet(specs)
  {
    forall a | a in Deps(g.reverse, n)
      ensures Dependent(specs, n) && a in IdSet(specs)
    {
      assert n in Deps(g.edges, a);
      assert n in EdgeSet(specs, a);
    }
    if i :| 0 <= i < |specs| && n in specs[i].dependencies {
      EdgesOfSpec(specs, i);
      assert n in Deps(g.edges, specs[i].id);
      assert specs[i].id in Deps(g.reverse, n);
    }
  }

  lemma LeafIffIndependent(kept: seq<AgentSpec>, g: DependencyGraph)
    requires StrictOk(kept)
    requires g.nodes == Ids(kept) && g.edges == EdgesOf(kept) && Converse(g.edges, g.reverse)
    ensures forall n :: n in g.nodes ==> (Deps(g.reverse, n) != {} <==> Dependent(kept, n))
    ensures forall n, d :: n in g.nodes && d in Deps(g.reverse, n) ==> d in g.nodes
  {
    IdsListIdSet(kept);
    assert forall n :: n in g.nodes <==> n in Elements(g.nodes);
    forall n | n in g.nodes
      ensures Deps(g.reverse, n) <= IdSet(kept) && (Deps(g.reverse, n) != {} <==> Dependent(kept, n))
    {
      DependentsAreEdges(kept, g, n);
    }
  }

  lemma VictimIsLastLeaf(kept: seq<AgentSpec>, g: DependencyGraph, victim: AgentSpec)
    requires StrictOk(kept) && |kept| > 0 && victim in kept
    requires g.nodes == Ids(kept) && g.edges == EdgesOf(kept) && Converse(g.edges, g.reverse)
    requires var leaves := Leaves(g); victim.id == if leaves != [] then leaves[|leaves| - 1] else kept[|kept| - 1].id
    ensures LastLeaf(kept, victim)
  {
    LeafIffIndependent(kept, g);
    LeafExists(g);
    var leaf := (n: Id) => Deps(g.reverse, n) == {};
    var at := LastMatch(g.nodes, leaf);
    assert g.nodes[at] == victim.id == kept[at].id;
    var k :| 0 <= k < |kept| && kept[k] == victim;
    assert k == at;
    forall j | at < j < |kept|
      ensures Dependent(kept, kept[j].id)
    {
      assert g.nodes[j] == kept[j].id && g.nodes[j] in g.nodes;
    }
    assert victim.id in g.nodes;
  }

  // The last element a filter keeps is the last matching one.
  lemma {:induction false} LastMatch(s: seq<Id>, p: Id -> bool) returns (at: nat)
    requires Filter(s, p) != []
    ensures at < |s| && p(s[at]) && s[at] == Filter(s, p)[|Filter(s, p)| - 1]
    ensures forall j :: at < j < |s| ==> !p(s[j])
  {
    var t, x := s[..|s| - 1], s[|s| - 1];
    if p(x) {
      at := |s| - 1;
    } else {
      at := LastMatch(t, p);
      assert forall j :: at < j < |s| - 1 ==> s[j] == t[j];
    }
  }

  // The code that rewrites dependents of the victim never has anything to do.
  lemma NothingStripped(specs: seq<AgentSpec>, victim: AgentSpec)
    requires LastLeaf(specs, victim)
    ensures !Dependent(Without(specs, victim.id), victim.id)
  {
    var rest := Without(specs, victim.id);
    forall i | 0 <= i < |rest|
      ensures victim.id !in rest[i].dependencies
    {
      assert rest[i] in specs;
      var k :| 0 <= k < |specs| && specs[k] == rest[i];
    }
  }

  lemma WithoutKeepsStrict(specs: seq<AgentSpec>, victim: AgentSpec)
    requires StrictOk(specs) && LastLeaf(specs, victim)
    ensures StrictOk(Without(specs, victim.id))
  {
    var rest := Without(specs, victim.id);
    FilterUnique(specs, NotNamed(victim.id));
    forall s, d | s in rest && d in s.dependencies
      ensures d in IdSet(rest)
    {
      var k :| 0 <= k < |specs| && specs[k] == s;
      assert d in IdSet(specs);
      InSpecs(specs, d);
      InSpecs(rest, d);
    }
    PartStrict(specs, rest);
  }

  lemma NamedVictim(specs: seq<AgentSpec>, victim: AgentSpec, s: AgentSpec)
    requires UniqueIds(specs) && victim in specs && s in specs
    ensures s.id == victim.id <==> s == victim
  {
    var i :| 0 <= i < |specs| && specs[i] == s;
    var j :| 0 <= j < |specs| && specs[j] == victim;
  }

  lemma MinusSnoc(specs: seq<AgentSpec>, dropped: seq<AgentSpec>, victim: AgentSpec)
    requires UniqueIds(specs) && victim in Minus(specs, dropped)
    ensures Without(Minus(specs, dropped), victim.id) == Minus(specs, dropped + [victim])
    ensures victim in specs && victim !in dropped
  {
    var both := Both(NotIn(dropped), NotNamed(victim.id));
    FilterTwice(specs, NotIn(dropped), NotNamed(victim.id));
    forall s | s in specs
      ensures both(s) == NotIn(dropped + [victim])(s)
    {
      NamedVictim(specs, victim, s);
    }
    FilterSame(specs, both, NotIn(dropped + [victim]));
  }
}
