// Deterministic validation of a proposed specialist team: per-spec gates,
// ownership merging, dependency resolution and cycle removal.
module Factory {
  import opened Models
  import opened Ordering
  import opened Graph
  import Schema

  const ALLOWED_TOOLS := {
    "research.search", "research.fetch_public_page", "evidence.read",
    "evidence.write_claim", "calls.request_intent", "orchestrator.request_agent"}

  const RESERVED_NAMES := {
    "orchestrator", "main orchestrator", "strategy architect", "call strategy",
    "evidence engine", "optimizer", "critic"}

  datatype Proposal = Proposal(
    name: string,
    role: string,
    objective: string,
    whyNeeded: string,
    owns: string,
    requiredInputs: seq<string>,
    dependencies: seq<string>,
    allowedTools: seq<string>,
    outputSchema: Json,
    doesNotControl: seq<string>,
    stopConditions: seq<string>,
    riskLevel: RiskLevel)

  // The text library: name normalization, lower-casing, strip-and-lower, and
  // the token overlap of two ownership statements.
  datatype Text = Text(norm: string -> string, lower: string -> string, fold: string -> string,
      overlap: (string, string) -> real)

  datatype Reason = ReservedName | DuplicateOrEmptyName | ToolsNotPermitted | ProhibitedPurpose | InvalidSchema
                  | UnresolvedDependency | PartOfCycle

  datatype Rejection = Rejection(name: string, reason: Reason)

  datatype Merge = Merge(dropped: string, into: string)

  // ---------------------------------------------------------------- 1. gates

  predicate ProhibitedMatch(p: Proposal, purposes: seq<string>, text: Text) {
    var haystack := text.lower(p.name + " " + p.role + " " + p.objective + " " + p.owns);
    exists i :: 0 <= i < |purposes| && text.fold(purposes[i]) != "" && Contains(haystack, text.fold(purposes[i]))
  }

  function Gate(p: Proposal, seen: set<string>, purposes: seq<string>, text: Text): Option<Reason> {
    var key := text.norm(p.name);
    if key in RESERVED_NAMES then Some(ReservedName)
    else if key == "" || key in seen then Some(DuplicateOrEmptyName)
    else if exists t :: t in p.allowedTools && t !in ALLOWED_TOOLS then Some(ToolsNotPermitted)
    else if ProhibitedMatch(p, purposes, text) then Some(ProhibitedPurpose)
    else if !Schema.ValidateSchema(p.outputSchema) then Some(InvalidSchema)
    else None
  }

  function KeysOf(ps: seq<Proposal>, text: Text): set<string> {
    set i | 0 <= i < |ps| :: text.norm(ps[i].name)
  }

  ghost predicate DistinctKeys(ps: seq<Proposal>, text: Text) {
    forall i, j :: 0 <= i < j < |ps| ==> text.norm(ps[i].name) != text.norm(ps[j].name)
  }

  lemma KeysSnoc(ps: seq<Proposal>, p: Proposal, text: Text)
    ensures KeysOf(ps + [p], text) == KeysOf(ps, text) + {text.norm(p.name)}
  {
    var t := ps + [p];
    forall k
      ensures k in KeysOf(t, text) <==> k in KeysOf(ps, text) || k == text.norm(p.name)
    {
      if k in KeysOf(ps, text) {
        var i :| 0 <= i < |ps| && text.norm(ps[i].name) == k;
        assert t[i] == ps[i];
      }
      assert t[|ps|] == p;
    }
  }

  datatype Gated = Gated(kept: seq<Proposal>, rejections: seq<Rejection>)

  function GateAll(ps: seq<Proposal>, purposes: seq<string>, text: Text): Gated {
    if ps == [] then Gated([], []) else
      var before := GateAll(ps[..|ps| - 1], purposes, text);
      var p := ps[|ps| - 1];
      match Gate(p, KeysOf(before.kept, text), purposes, text)
      case Some(reason) => before.(rejections := before.rejections + [Rejection(p.name, reason)])
      case None => before.(kept := before.kept + [p])
  }

  // Kept proposals pass every gate under distinct, usable names; nothing is lost.
  lemma {:induction false} GateAllCorrect(ps: seq<Proposal>, purposes: seq<string>, text: Text)
    ensures var g := GateAll(ps, purposes, text);
      && |g.kept| + |g.rejections| == |ps|
      && DistinctKeys(g.kept, text)
      && (forall p :: p in g.kept ==> p in ps && Gate(p, {}, purposes, text) == None)
  {
    if ps != [] {
      GateAllCorrect(ps[..|ps| - 1], purposes, text);
      var before := GateAll(ps[..|ps| - 1], purposes, text);
      var p := ps[|ps| - 1];
      if Gate(p, KeysOf(before.kept, text), purposes, text) == None {
        forall i | 0 <= i < |before.kept|
          ensures text.norm(before.kept[i].name) != text.norm(p.name)
        {
          assert text.norm(before.kept[i].name) in KeysOf(before.kept, text);
        }
      }
    }
  }

  method RunGates(ps: seq<Proposal>, purposes: seq<string>, text: Text)
      returns (kept: seq<Proposal>, rejections: seq<Rejection>)
    ensures Gated(kept, rejections) == GateAll(ps, purposes, text)
  {
    kept, rejections := [], [];
    var seen: set<string> := {};
    for i := 0 to |ps|
      invariant Gated(kept, rejections) == GateAll(ps[..i], purposes, text)
      invariant seen == KeysOf(kept, text)
    {
      assert ps[..i + 1][..i] == ps[..i];
      var verdict := Gate(ps[i], seen, purposes, text);
      if verdict.Some? {
        rejections := rejections + [Rejection(ps[i].name, verdict.value)];
      } else {
        KeysSnoc(kept, ps[i], text);
        seen := seen + {text.norm(ps[i].name)};
        kept := kept + [ps[i]];
      }
    }
    assert ps[..|ps|] == ps;
  }

  // ---------------------------------------------------------------- 2. merging

  function RiskRank(level: RiskLevel): nat {
    match level case LOW => 0 case MEDIUM => 1 case HIGH => 2
  }

  // Items of b not already present up to folding, appended to a.
  function UnionInto(a: seq<string>, b: seq<string>, text: Text): (r: seq<string>)
    ensures a <= r
    ensures forall x :: x in b ==> exists y :: y in r && text.fold(y) == text.fold(x)
    ensures forall y :: y in r ==> y in a || y in b
    decreases |b|
  {
    if b == [] then a else
      var rest := UnionInto(a, b[..|b| - 1], text);
      var item := b[|b| - 1];
      assert b == b[..|b| - 1] + [item];
      if exists y :: y in rest && text.fold(y) == text.fold(item) then rest else rest + [item]
  }

  function MergeInto(base: Proposal, extra: Proposal, text: Text): (r: Proposal)
    ensures r.name == base.name && r.outputSchema == base.outputSchema
    ensures base.dependencies <= r.dependencies
    ensures RiskRank(r.riskLevel) >= RiskRank(base.riskLevel) && RiskRank(r.riskLevel) >= RiskRank(extra.riskLevel)
  {
    base.(owns := base.owns + "; " + extra.owns,
          objective := base.objective + " Also: " + extra.objective,
          requiredInputs := UnionInto(base.requiredInputs, extra.requiredInputs, text),
          dependencies := UnionInto(base.dependencies, extra.dependencies, text),
          allowedTools := UnionInto(base.allowedTools, extra.allowedTools, text),
          doesNotControl := UnionInto(base.doesNotControl, extra.doesNotControl, text),
          stopConditions := UnionInto(base.stopConditions, extra.stopConditions, text),
          riskLevel := if RiskRank(extra.riskLevel) > RiskRank(base.riskLevel) then extra.riskLevel else base.riskLevel)
  }

  datatype Merging = Merging(merged: seq<Proposal>, alias: map<string, string>, merges: seq<Merge>)

  // The first already-kept owner whose ownership overlaps enough.
  function OverlapAt(p: Proposal, merged: seq<Proposal>, from: nat, text: Text, threshold: real): (at: Option<nat>)
    requires from <= |merged|
    ensures at.Some? ==> from <= at.value < |merged| && text.overlap(p.owns, merged[at.value].owns) >= threshold
    ensures forall j :: from <= j < (if at.Some? then at.value else |merged|) ==>
        text.overlap(p.owns, merged[j].owns) < threshold
    decreases |merged| - from
  {
    if from == |merged| then None
    else if text.overlap(p.owns, merged[from].owns) >= threshold then Some(from)
    else OverlapAt(p, merged, from + 1, text, threshold)
  }

  function MergeOne(m: Merging, p: Proposal, text: Text, threshold: real): Merging {
    var at := OverlapAt(p, m.merged, 0, text, threshold);
    if at.None? || Contains(text.lower(p.whyNeeded), text.norm(m.merged[at.value].name)) then
      m.(merged := m.merged + [p])
    else
      var target := m.merged[at.value];
      Merging(m.merged[at.value := MergeInto(target, p, text)],
              m.alias[text.norm(p.name) := text.norm(target.name)],
              m.merges + [Merge(p.name, target.name)])
  }

  function MergeAll(ps: seq<Proposal>, text: Text, threshold: real): Merging {
    if ps == [] then Merging([], map[], []) else
      MergeOne(MergeAll(ps[..|ps| - 1], text, threshold), ps[|ps| - 1], text, threshold)
  }

  // Survivors keep distinct names, and every alias leads to a survivor in one hop.
  ghost predicate MergingOk(m: Merging, ps: seq<Proposal>, text: Text) {
    && |m.merged| + |m.merges| == |ps|
    && DistinctKeys(m.merged, text)
    && m.alias.Keys !! KeysOf(m.merged, text)
    && m.alias.Keys + KeysOf(m.merged, text) == KeysOf(ps, text)
    && forall k :: k in m.alias ==> m.alias[k] in KeysOf(m.merged, text)
  }

  lemma KeysUpdate(ps: seq<Proposal>, at: nat, p: Proposal, text: Text)
    requires at < |ps| && p.name == ps[at].name
    ensures KeysOf(ps[at := p], text) == KeysOf(ps, text)
    ensures DistinctKeys(ps, text) ==> DistinctKeys(ps[at := p], text)
  {
    var t := ps[at := p];
    assert forall i :: 0 <= i < |ps| ==> t[i].name == ps[i].name;
    forall k
      ensures k in KeysOf(t, text) <==> k in KeysOf(ps, text)
    {
      if k in KeysOf(ps, text) {
        var i :| 0 <= i < |ps| && text.norm(ps[i].name) == k;
        assert text.norm(t[i].name) == k;
      }
    }
  }

  lemma {:induction false} MergeAllCorrect(ps: seq<Proposal>, text: Text, threshold: real)
    requires DistinctKeys(ps, text)
    ensures MergingOk(MergeAll(ps, text, threshold), ps, text)
  {
    if ps != [] {
      var rest, p := ps[..|ps| - 1], ps[|ps| - 1];
      MergeAllCorrect(rest, text, threshold);
      var m := MergeAll(rest, text, threshold);
      assert ps == rest + [p];
      KeysSnoc(rest, p, text);
      assert text.norm(p.name) !in KeysOf(rest, text);
      MergeOneCorrect(m, rest, p, text, threshold);
    }
  }

  lemma MergeOneCorrect(m: Merging, rest: seq<Proposal>, p: Proposal, text: Text, threshold: real)
    requires MergingOk(m, rest, text) && text.norm(p.name) !in KeysOf(rest, text)
    ensures MergingOk(MergeOne(m, p, text, threshold), rest + [p], text)
  {
    var at := OverlapAt(p, m.merged, 0, text, threshold);
    if at.None? || Contains(text.lower(p.whyNeeded), text.norm(m.merged[at.value].name)) {
      KeptCorrect(m, rest, p, text);
    } else {
      AbsorbedCorrect(m, rest, p, at.value, text);
    }
  }

  lemma KeptCorrect(m: Merging, rest: seq<Proposal>, p: Proposal, text: Text)
    requires MergingOk(m, rest, text) && text.norm(p.name) !in KeysOf(rest, text)
    ensures MergingOk(m.(merged := m.merged + [p]), rest + [p], text)
  {
    KeysSnoc(rest, p, text);
    KeysSnoc(m.merged, p, text);
    assert text.norm(p.name) !in m.alias.Keys && text.norm(p.name) !in KeysOf(m.merged, text);
  }

  lemma AbsorbedCorrect(m: Merging, rest: seq<Proposal>, p: Proposal, at: nat, text: Text)
    requires MergingOk(m, rest, text) && text.norm(p.name) !in KeysOf(rest, text) && at < |m.merged|
    ensures MergingOk(Merging(m.merged[at := MergeInto(m.merged[at], p, text)],
                              m.alias[text.norm(p.name) := text.norm(m.merged[at].name)],
                              m.merges + [Merge(p.name, m.merged[at].name)]), rest + [p], text)
  {
    KeysSnoc(rest, p, text);
    KeysUpdate(m.merged, at, MergeInto(m.merged[at], p, text), text);
    assert text.norm(p.name) !in m.alias.Keys && text.norm(p.name) !in KeysOf(m.merged, text);
    assert text.norm(m.merged[at].name) in KeysOf(m.merged, text);
  }

  method MergeOwners(ps: seq<Proposal>, text: Text, threshold: real)
    returns (merged: seq<Proposal>, alias: map<string, string>, merges: seq<Merge>)
    ensures Merging(merged, alias, merges) == MergeAll(ps, text, threshold)
  {
    merged, alias, merges := [], map[], [];
    for i := 0 to |ps|
      invariant Merging(merged, alias, merges) == MergeAll(ps[..i], text, threshold)
    {
      assert ps[..i + 1][..i] == ps[..i];
      var p := ps[i];
      var at := FindOverlap(p, merged, text, threshold);
      if at.None? {
        merged := merged + [p];
      } else {
        var target := merged[at.value];
        if Contains(text.lower(p.whyNeeded), text.norm(target.name)) {
          merged := merged + [p];
        } else {
          merged := merged[at.value := MergeInto(target, p, text)];
          alias := alias[text.norm(p.name) := text.norm(target.name)];
          merges := merges + [Merge(p.name, target.name)];
        }
      }
    }
    assert ps[..|ps|] == ps;
  }

  method FindOverlap(p: Proposal, merged: seq<Proposal>, text: Text, threshold: real) returns (at: Option<nat>)
    ensures at == OverlapAt(p, merged, 0, text, threshold)
  {
    for index := 0 to |merged|
      invariant OverlapAt(p, merged, 0, text, threshold) == OverlapAt(p, merged, index, text, threshold)
    {
      if text.overlap(p.owns, merged[index].owns) >= threshold {
        return Some(index);
      }
    }
    at := None;
  }

  // ---------------------------------------------------------------- 3. dependency resolution

  // How a dependency name is looked up: normalized, then through one alias hop.
  datatype Names = Names(norm: string -> string, alias: map<string, string>) {
    function Key(dep: string): string {
      if norm(dep) in alias then alias[norm(dep)] else norm(dep)
    }
  }

  function ResolvedDeps(deps: seq<string>, key: string, names: Names, live: set<string>): (r: seq<string>)
    ensures Distinct(r)
    ensures forall k :: k in r <==> k != key && k in live && exists d :: d in deps && names.Key(d) == k
  {
    if deps == [] then [] else
      var rest := ResolvedDeps(deps[..|deps| - 1], key, names, live);
      var last := deps[|deps| - 1];
      var k := names.Key(last);
      assert deps == deps[..|deps| - 1] + [last];
      if k == key || k !in live || k in rest then rest else rest + [k]
  }

  function MissingDeps(deps: seq<string>, key: string, names: Names, live: set<string>): (r: seq<string>)
    ensures forall d :: d in r <==> d in deps && names.Key(d) != key && names.Key(d) !in live
    ensures r == [] <==> forall d :: d in deps ==> names.Key(d) == key || names.Key(d) in live
  {
    if deps == [] then [] else
      var rest := MissingDeps(deps[..|deps| - 1], key, names, live);
      var last := deps[|deps| - 1];
      assert deps == deps[..|deps| - 1] + [last];
      if names.Key(last) != key && names.Key(last) !in live then rest + [last] else rest
  }

  // The insertion-ordered dictionary of live proposals.
  datatype Live = Live(order: seq<string>, table: map<string, Proposal>) {
    ghost predicate Valid() {
      Distinct(order) && Elements(order) == table.Keys
    }
  }

  // A table in which one entry names its dependencies by key.
  function Rewritten(table: map<string, Proposal>, key: string, names: Names): (r: map<string, Proposal>)
    requires key in table
    ensures r.Keys == table.Keys
  {
    table[key := table[key].(dependencies := ResolvedDeps(table[key].dependencies, key, names, table.Keys))]
  }

  // One pass from position i: either every key resolves, or the first one that
  // does not is reported together with the table as it stands.
  datatype Pass = Settled(table: map<string, Proposal>) | Orphan(at: nat, table: map<string, Proposal>)

  function Scan(order: seq<string>, table: map<string, Proposal>, i: nat, names: Names): (r: Pass)
    requires i <= |order| && forall k :: k in order ==> k in table
    ensures r.table.Keys == table.Keys
    ensures r.Orphan? ==> i <= r.at < |order|
    decreases |order| - i
  {
    if i == |order| then Settled(table) else
      var key := order[i];
      var deps := table[key].dependencies;
      if MissingDeps(deps, key, names, table.Keys) != [] then Orphan(i, table) else
        Scan(order, Rewritten(table, key, names), i + 1, names)
  }

  lemma ScanStep(order: seq<string>, table: map<string, Proposal>, i: nat, names: Names)
    requires i < |order| && forall k :: k in order ==> k in table
    ensures var missing := MissingDeps(table[order[i]].dependencies, order[i], names, table.Keys);
      Scan(order, table, i, names)
      == if missing != [] then Orphan(i, table) else Scan(order, Rewritten(table, order[i], names), i + 1, names)
  {
  }

  function RemoveAt<T>(s: seq<T>, i: nat): seq<T>
    requires i < |s|
  {
    s[..i] + s[i + 1..]
  }

  lemma RemoveAtElements(live: Live, table: map<string, Proposal>, i: nat)
    requires live.Valid() && i < |live.order| && table.Keys == live.table.Keys
    ensures Live(RemoveAt(live.order, i), table - {live.order[i]}).Valid()
  {
    var rest := RemoveAt(live.order, i);
    forall k
      ensures k in rest <==> k in live.order && k != live.order[i]
    {
      if k in live.order && k != live.order[i] {
        var j :| 0 <= j < |live.order| && live.order[j] == k;
        assert j < i ==> rest[j] == k;
        assert j > i ==> rest[j - 1] == k;
      }
    }
  }

  // The whole loop: a rejection restarts the scan.
  function Settle(live: Live, names: Names): Live
    requires live.Valid()
    decreases |live.order|
  {
    match Scan(live.order, live.table, 0, names)
    case Settled(table) => Live(live.order, table)
    case Orphan(at, table) =>
      RemoveAtElements(live, table, at);
      Settle(Live(RemoveAt(live.order, at), table - {live.order[at]}), names)
  }

  method ResolveDependencies(start: Live, names: Names) returns (live: Live, rejections: seq<Rejection>)
    requires start.Valid()
    ensures live == Settle(start, names) && live.Valid()
    ensures |live.order| + |rejections| == |start.order|
  {
    live, rejections := start, [];
    var changed := true;
    while changed
      invariant live.Valid()
      invariant |live.order| + |rejections| == |start.order|
      invariant changed ==> Settle(live, names) == Settle(start, names)
      invariant !changed ==> live == Settle(start, names)
      decreases |live.order|, changed
    {
      var pass := ScanOnce(live, names);
      match pass
      case Settled(table) =>
        live := Live(live.order, table);
        changed := false;
      case Orphan(at, table) =>
        rejections := rejections + [Rejection(table[live.order[at]].name, UnresolvedDependency)];
        RemoveAtElements(live, table, at);
        live := Live(RemoveAt(live.order, at), table - {live.order[at]});
    }
  }

  method ScanList(order: seq<string>, start: map<string, Proposal>, names: Names) returns (pass: Pass)
    requires forall k :: k in order ==> k in start
    ensures pass == Scan(order, start, 0, names)
  {
    var table := start;
    for i := 0 to |order|
      invariant forall k :: k in order ==> k in table
      invariant Scan(order, table, i, names) == Scan(order, start, 0, names)
    {
      var key := order[i];
      var missing := MissingDeps(table[key].dependencies, key, names, table.Keys);
      ScanStep(order, table, i, names);
      if missing != [] {
        return Orphan(i, table);
      }
      table := Rewritten(table, key, names);
    }
    pass := Settled(table);
  }

  method ScanOnce(live: Live, names: Names) returns (pass: Pass)
    requires live.Valid()
    ensures pass == Scan(live.order, live.table, 0, names)
  {
    OrderListsTable(live);
    pass := ScanList(live.order, live.table, names);
  }

  lemma OrderListsTable(live: Live)
    requires live.Valid()
    ensures forall k :: k in live.order <==> k in live.table
  {
    assert forall k :: k in live.order <==> k in Elements(live.order);
  }

  // What each live proposal looks like once its dependencies are resolved.
  ghost predicate ResolvedAt(table: map<string, Proposal>, key: string)
    requires key in table
  {
    var deps := table[key].dependencies;
    Distinct(deps) && key !in deps && forall d :: d in deps ==> d in table
  }

  lemma {:induction false} ScanResolves(order: seq<string>, table: map<string, Proposal>, i: nat, names: Names)
    requires i <= |order| && Distinct(order) && forall k :: k in order ==> k in table
    requires forall j :: 0 <= j < i ==> ResolvedAt(table, order[j])
    requires Scan(order, table, i, names).Settled?
    ensures forall k :: k in order ==> ResolvedAt(Scan(order, table, i, names).table, k)
    decreases |order| - i
  {
    if i < |order| {
      var key := order[i];
      var next := Rewritten(table, key, names);
      forall j | 0 <= j < i + 1
        ensures ResolvedAt(next, order[j])
      {
        if j < i {
          assert order[j] != key && ResolvedAt(table, order[j]);
        }
      }
      ScanResolves(order, next, i + 1, names);
    }
  }

  // Whatever the normalization does, the loop ends with every dependency
  // resolved to the key of another live proposal.
  lemma {:induction false} SettleResolves(live: Live, names: Names)
    requires live.Valid()
    ensures var r := Settle(live, names); r.Valid() && forall k :: k in r.table ==> ResolvedAt(r.table, k)
    decreases |live.order|
  {
    match Scan(live.order, live.table, 0, names)
    case Settled(table) =>
      ScanResolves(live.order, live.table, 0, names);
      forall k | k in table
        ensures ResolvedAt(table, k)
      {
        assert k in Elements(live.order);
      }
    case Orphan(at, table) =>
      RemoveAtElements(live, table, at);
      SettleResolves(Live(RemoveAt(live.order, at), table - {live.order[at]}), names);
  }

  function StartLive(merged: seq<Proposal>, text: Text): Live {
    Live(seq(|merged|, i requires 0 <= i < |merged| => text.norm(merged[i].name)), TableOf(merged, text))
  }

  function TableOf(merged: seq<Proposal>, text: Text): map<string, Proposal> {
    if merged == [] then map[] else
      TableOf(merged[..|merged| - 1], text)[text.norm(merged[|merged| - 1].name) := merged[|merged| - 1]]
  }

  lemma {:induction false} TableOfKeys(merged: seq<Proposal>, text: Text)
    ensures TableOf(merged, text).Keys == KeysOf(merged, text)
  {
    if merged != [] {
      var rest, last := merged[..|merged| - 1], merged[|merged| - 1];
      TableOfKeys(rest, text);
      KeysSnoc(rest, last, text);
      assert merged == rest + [last];
    }
  }

  lemma {:induction false} TableOfEntry(merged: seq<Proposal>, text: Text, i: nat)
    requires DistinctKeys(merged, text) && i < |merged|
    ensures var key := text.norm(merged[i].name);
      key in TableOf(merged, text) && TableOf(merged, text)[key] == merged[i]
    decreases |merged|
  {
    var n := |merged| - 1;
    if i < n {
      TableOfEntry(merged[..n], text, i);
      assert text.norm(merged[i].name) != text.norm(merged[n].name);
    }
  }

  lemma TableOfCorrect(merged: seq<Proposal>, text: Text)
    requires DistinctKeys(merged, text)
    ensures TableOf(merged, text).Keys == KeysOf(merged, text)
    ensures forall i :: 0 <= i < |merged| ==>
      text.norm(merged[i].name) in TableOf(merged, text)
          && TableOf(merged, text)[text.norm(merged[i].name)] == merged[i]
  {
    TableOfKeys(merged, text);
    forall i | 0 <= i < |merged|
      ensures text.norm(merged[i].name) in TableOf(merged, text)
          && TableOf(merged, text)[text.norm(merged[i].name)] == merged[i]
    {
      TableOfEntry(merged, text, i);
    }
  }

  lemma StartLiveValid(merged: seq<Proposal>, text: Text)
    requires DistinctKeys(merged, text)
    ensures StartLive(merged, text).Valid()
  {
    TableOfCorrect(merged, text);
    var order := StartLive(merged, text).order;
    forall k
      ensures k in order <==> k in KeysOf(merged, text)
    {
      if k in KeysOf(merged, text) {
        var i :| 0 <= i < |merged| && text.norm(merged[i].name) == k;
        assert order[i] == k;
      }
    }
  }

  // ---------------------------------------------------------------- 4. ids and cycles

  function SpecOf(p: Proposal, id: Id, ids: map<string, Id>): AgentSpec
    requires forall d :: d in p.dependencies ==> d in ids
  {
    AgentSpec(id, p.name, p.role, p.objective, p.whyNeeded, p.owns,
              Sorted(set t | t in p.allowedTools), p.requiredInputs,
              seq(|p.dependencies|, i requires 0 <= i < |p.dependencies| => ids[p.dependencies[i]]),
              p.outputSchema, p.doesNotControl, p.stopConditions, p.riskLevel)
  }

  ghost predicate Injective(ids: map<string, Id>) {
    forall a, b :: a in ids && b in ids && ids[a] == ids[b] ==> a == b
  }

  // The team as a graph over names.
  ghost function NeedEdges(table: map<string, Proposal>): Edges {
    map k | k in table :: Elements(table[k].dependencies)
  }

  ghost predicate OnOrAboveCycle(e: Edges, n: Id) {
    exists m :: ReachesOrIs(e, n, m) && Reaches(e, m, m)
  }

  ghost predicate ResolvedLive(live: Live, ids: map<string, Id>) {
    && live.Valid() && ids.Keys == live.table.Keys && Injective(ids)
    && forall k :: k in live.table ==> ResolvedAt(live.table, k)
  }

  function SpecsOf(live: Live, ids: map<string, Id>): seq<AgentSpec>
    requires live.Valid() && ids.Keys == live.table.Keys
    requires forall k, d :: k in live.table && d in live.table[k].dependencies ==> d in live.table
  {
    seq(|live.order|, i requires 0 <= i < |live.order| =>
      assert live.order[i] in Elements(live.order);
      SpecOf(live.table[live.order[i]], ids[live.order[i]], ids))
  }

  // The specs, place by place.
  ghost predicate SpecsListed(live: Live, ids: map<string, Id>, specs: seq<AgentSpec>) {
    && |specs| == |live.order|
    && forall i :: 0 <= i < |specs| ==> SpecListed(live, ids, specs[i], live.order[i])
  }

  ghost predicate SpecListed(live: Live, ids: map<string, Id>, spec: AgentSpec, k: string) {
    && k in live.table && k in ids
    && (forall d :: d in live.table[k].dependencies ==> d in ids)
    && spec == SpecOf(live.table[k], ids[k], ids)
  }

  lemma SpecsOfListed(live: Live, ids: map<string, Id>)
    requires ResolvedLive(live, ids)
    ensures SpecsListed(live, ids, SpecsOf(live, ids))
  {
    var specs := SpecsOf(live, ids);
    forall i | 0 <= i < |specs|
      ensures SpecListed(live, ids, specs[i], live.order[i])
    {
      assert live.order[i] in Elements(live.order);
      assert ResolvedAt(live.table, live.order[i]);
    }
  }

  lemma IdsInOrder(order: seq<string>, ids: map<string, Id>, specs: seq<AgentSpec>)
    requires Distinct(order) && Elements(order) == ids.Keys && Injective(ids) && |specs| == |order|
    requires forall i :: 0 <= i < |order| ==> order[i] in ids && specs[i].id == ids[order[i]]
    ensures UniqueIds(specs) && IdSet(specs) == ids.Values
  {
    forall i, j | 0 <= i < j < |specs|
      ensures specs[i].id != specs[j].id
    {
      assert order[i] != order[j];
    }
    forall k | k in ids
      ensures ids[k] in IdSet(specs)
    {
      assert k in Elements(order);
      var i :| 0 <= i < |order| && order[i] == k;
      assert specs[i].id == ids[k];
    }
  }

  lemma ListedIds(live: Live, ids: map<string, Id>, specs: seq<AgentSpec>)
    requires ResolvedLive(live, ids) && SpecsListed(live, ids, specs)
    ensures UniqueIds(specs) && IdSet(specs) == ids.Values
  {
    forall i | 0 <= i < |specs|
      ensures live.order[i] in ids && specs[i].id == ids[live.order[i]]
    {
      assert SpecListed(live, ids, specs[i], live.order[i]);
    }
    IdsInOrder(live.order, ids, specs);
  }

  lemma SpecsOfCorrect(live: Live, ids: map<string, Id>)
    requires ResolvedLive(live, ids)
    ensures var specs := SpecsOf(live, ids);
      && UniqueIds(specs) && Resolved(specs) && NoSelfDependency(specs)
      && IdSet(specs) == ids.Values
      && SpecsListed(live, ids, specs)
  {
    var specs := SpecsOf(live, ids);
    SpecsOfListed(live, ids);
    ListedIds(live, ids, specs);
    forall i | 0 <= i < |specs|
      ensures Elements(specs[i].dependencies) <= ids.Values && specs[i].id !in specs[i].dependencies
    {
      assert SpecListed(live, ids, specs[i], live.order[i]);
      SpecNeedsTeam(live, ids, live.order[i]);
    }
    forall i, d | 0 <= i < |specs| && d in specs[i].dependencies
      ensures d in IdSet(specs)
    {
      assert d in Elements(specs[i].dependencies);
    }
  }

  lemma SpecNeedsTeam(live: Live, ids: map<string, Id>, k: string)
    requires ResolvedLive(live, ids) && k in live.table
    requires forall d :: d in live.table[k].dependencies ==> d in ids
    ensures var spec := SpecOf(live.table[k], ids[k], ids);
      Elements(spec.dependencies) <= ids.Values && spec.id !in spec.dependencies
  {
    assert ResolvedAt(live.table, k);
    SpecDependencies(live.table[k], ids[k], ids);
    var spec := SpecOf(live.table[k], ids[k], ids);
    forall d | d in spec.dependencies
      ensures d in ids.Values && d != ids[k]
    {
      assert d in Elements(spec.dependencies);
    }
  }

  // Renaming names to ids renames the edges.
  lemma SpecEdgesRenamed(live: Live, ids: map<string, Id>, specs: seq<AgentSpec>, k: string)
    requires ResolvedLive(live, ids) && k in live.table
    requires forall k, d :: k in live.table && d in live.table[k].dependencies ==> d in live.table
    requires UniqueIds(specs) && Resolved(specs) && NoSelfDependency(specs)
    requires SpecsListed(live, ids, specs)
    ensures Deps(EdgesOf(specs), ids[k]) == set d | d in Elements(live.table[k].dependencies) :: ids[d]
  {
    assert k in Elements(live.order);
    var i :| 0 <= i < |live.order| && live.order[i] == k;
    assert SpecListed(live, ids, specs[i], live.order[i]);
    EdgesOfSpec(specs, i);
    SpecDependencies(live.table[k], ids[k], ids);
    AllEdges(specs, i);
  }

  lemma AllEdges(specs: seq<AgentSpec>, i: nat)
    requires Resolved(specs) && NoSelfDependency(specs) && i < |specs|
    ensures SpecEdges(specs[i], IdSet(specs)) == Elements(specs[i].dependencies)
  {
  }

  lemma SpecDependencies(p: Proposal, id: Id, ids: map<string, Id>)
    requires forall d :: d in p.dependencies ==> d in ids
    ensures Elements(SpecOf(p, id, ids).dependencies) == set d | d in Elements(p.dependencies) :: ids[d]
  {
    var renamed := SpecOf(p, id, ids).dependencies;
    forall y
      ensures y in renamed <==> exists d :: d in p.dependencies && ids[d] == y
    {
      if y in renamed {
        var j :| 0 <= j < |renamed| && renamed[j] == y;
        assert p.dependencies[j] in p.dependencies && ids[p.dependencies[j]] == y;
      }
      if d :| d in p.dependencies && ids[d] == y {
        var j :| 0 <= j < |p.dependencies| && p.dependencies[j] == d;
        assert renamed[j] == y;
      }
    }
  }

  ghost predicate Renaming(e: Edges, f: Edges, ids: map<string, Id>) {
    && Injective(ids)
    && forall a :: a in ids ==> Deps(e, a) <= ids.Keys && Deps(f, ids[a]) == set d | d in Deps(e, a) :: ids[d]
  }

  lemma {:induction false} RenamedReach(e: Edges, f: Edges, ids: map<string, Id>, a: string, b: string, k: nat)
    requires Renaming(e, f, ids) && a in ids && ReachesIn(e, a, b, k)
    ensures b in ids && ReachesIn(f, ids[a], ids[b], k)
    decreases k
  {
    if k > 0 {
      var c :| c in Deps(e, a) && ReachesIn(e, c, b, k - 1);
      RenamedReach(e, f, ids, c, b, k - 1);
      assert ids[c] in Deps(f, ids[a]);
    }
  }

  lemma {:induction false} ReachUnrenamed(e: Edges, f: Edges, ids: map<string, Id>, a: string, y: Id, k: nat)
      returns (b: string)
    requires Renaming(e, f, ids) && a in ids && ReachesIn(f, ids[a], y, k)
    ensures b in ids && ids[b] == y && ReachesIn(e, a, b, k)
    decreases k
  {
    if k == 0 {
      b := a;
    } else {
      var z :| z in Deps(f, ids[a]) && ReachesIn(f, z, y, k - 1);
      var c :| c in Deps(e, a) && ids[c] == z;
      b := ReachUnrenamed(e, f, ids, c, y, k - 1);
    }
  }

  lemma RenamedReaches(e: Edges, f: Edges, ids: map<string, Id>, a: string, b: string)
    requires Renaming(e, f, ids) && a in ids && b in ids
    ensures Reaches(e, a, b) <==> Reaches(f, ids[a], ids[b])
  {
    if Reaches(e, a, b) {
      var k: nat :| k > 0 && ReachesIn(e, a, b, k);
      RenamedReach(e, f, ids, a, b, k);
    }
    if Reaches(f, ids[a], ids[b]) {
      var k: nat :| k > 0 && ReachesIn(f, ids[a], ids[b], k);
      var c := ReachUnrenamed(e, f, ids, a, ids[b], k);
    }
  }

  lemma SpecsRenaming(live: Live, ids: map<string, Id>)
    requires ResolvedLive(live, ids)
    ensures Renaming(NeedEdges(live.table), EdgesOf(SpecsOf(live, ids)), ids)
    ensures IdSet(SpecsOf(live, ids)) == ids.Values
  {
    SpecsOfCorrect(live, ids);
    var e, f := NeedEdges(live.table), EdgesOf(SpecsOf(live, ids));
    forall a | a in ids
      ensures Deps(e, a) <= ids.Keys && Deps(f, ids[a]) == set d | d in Deps(e, a) :: ids[d]
    {
      SpecEdgesRenamed(live, ids, SpecsOf(live, ids), a);
      assert ResolvedAt(live.table, a);
    }
  }

  lemma StuckMeansCycle(e: Edges, f: Edges, ids: map<string, Id>, k: string)
    requires Renaming(e, f, ids) && k in ids
    ensures Stuck(ids.Values, f, ids[k]) <==> OnOrAboveCycle(e, k)
  {
    if Stuck(ids.Values, f, ids[k]) {
      var y :| ReachesOrIs(f, ids[k], y) && Obstacle(ids.Values, f, y);
      var m := k;
      if y != ids[k] {
        var n: nat :| n > 0 && ReachesIn(f, ids[k], y, n);
        m := ReachUnrenamed(e, f, ids, k, y, n);
        assert Reaches(e, k, m);
      }
      assert ids[m] in ids.Values;
      RenamedReaches(e, f, ids, m, m);
    }
    if m :| ReachesOrIs(e, k, m) && Reaches(e, m, m) {
      if m != k {
        var n: nat :| n > 0 && ReachesIn(e, k, m, n);
        RenamedReach(e, f, ids, k, m, n);
        RenamedReaches(e, f, ids, k, m);
      }
      RenamedReaches(e, f, ids, m, m);
      assert Obstacle(ids.Values, f, ids[m]);
    }
  }

  // Dropping whatever is on a cycle or above one leaves a team the runner accepts.
  lemma AcyclicPartStrict(specs: seq<AgentSpec>, cyclic: set<Id>, accepted: seq<AgentSpec>)
    requires Resolved(specs) && NoSelfDependency(specs)
    requires cyclic == IdSet(specs) - Elements(KahnOrder(IdSet(specs), EdgesOf(specs), {}))
    requires UniqueIds(accepted)
    requires forall s :: s in accepted <==> s in specs && s.id !in cyclic
    ensures StrictOk(accepted)
  {
    forall s
      ensures s in accepted <==> s in specs && s.id in KahnOrder(IdSet(specs), EdgesOf(specs), {})
    {
      if s in specs {
        InSpecs(specs, s.id);
      }
    }
    var nodes, e := IdSet(specs), EdgesOf(specs);
    var order := KahnOrder(nodes, e, {});
    KahnCorrect(nodes, e);
    forall s | s in accepted
      ensures s.id !in s.dependencies && forall d :: d in s.dependencies ==> d in IdSet(accepted)
    {
      forall d | d in s.dependencies
        ensures d in IdSet(accepted) && d != s.id
      {
        DependencyAccepted(specs, order, accepted, s, d);
      }
    }
    ClosedPartResolved(accepted);
    forall n | n in IdSet(accepted)
      ensures !Reaches(e, n, n)
    {
      InSpecs(accepted, n);
      InSpecs(specs, n);
      assert n in order;
      assert Reaches(e, n, n) ==> ReachesOrIs(e, n, n) && Obstacle(nodes, e, n);
    }
    forall n | Reaches(EdgesOf(accepted), n, n)
      ensures n in IdSet(accepted) && Reaches(e, n, n)
    {
      PartCycle(specs, accepted, n);
    }
  }

  lemma DependencyAccepted(specs: seq<AgentSpec>, order: seq<Id>, accepted: seq<AgentSpec>, s: AgentSpec, d: Id)
    requires Resolved(specs) && NoSelfDependency(specs)
    requires DependenciesFirst(order, EdgesOf(specs), {})
    requires forall s :: s in accepted <==> s in specs && s.id in order
    requires s in accepted && d in s.dependencies
    ensures d in IdSet(accepted) && d != s.id
  {
    var j :| 0 <= j < |specs| && specs[j] == s;
    assert d in EdgeSet(specs, s.id);
    var i :| 0 <= i < |order| && order[i] == s.id;
    InSpecs(specs, s.id);
    assert d in Deps(EdgesOf(specs), order[i]);
    assert Preceded(order, EdgesOf(specs), {}, i);
    InSpecs(specs, d);
    InSpecs(accepted, d);
  }

  // ---------------------------------------------------------------- the whole validation

  // The live proposals after gates, merging and dependency resolution.
  ghost function SettledTeam(ps: seq<Proposal>, purposes: seq<string>, text: Text, threshold: real): Live {
    var kept := GateAll(ps, purposes, text).kept;
    var m := MergeAll(kept, text, threshold);
    GateAllCorrect(ps, purposes, text);
    MergeAllCorrect(kept, text, threshold);
    StartLiveValid(m.merged, text);
    Settle(StartLive(m.merged, text), Names(text.norm, m.alias))
  }

  // Exactly the settled proposals that neither lie on nor lead to a cycle.
  ghost predicate AcceptedFrom(accepted: seq<AgentSpec>, nameToId: map<string, Id>, live: Live) {
    && (forall k :: k in nameToId <==> k in live.table && !OnOrAboveCycle(NeedEdges(live.table), k))
    && Injective(nameToId)
    && (forall s :: s in accepted <==> exists k :: k in nameToId && SpecFor(s, k, live, nameToId))
  }

  ghost predicate SpecFor(s: AgentSpec, k: string, live: Live, nameToId: map<string, Id>) {
    && k in live.table && k in nameToId
    && (forall d :: d in live.table[k].dependencies ==> d in nameToId)
    && s == SpecOf(live.table[k], nameToId[k], nameToId)
  }

  method AssignIds(order: seq<string>, newIds: seq<Id>) returns (ids: map<string, Id>)
    requires Distinct(order) && Distinct(newIds) && |newIds| >= |order|
    ensures ids.Keys == Elements(order) && Injective(ids)
  {
    ids := map[];
    for i := 0 to |order|
      invariant ids.Keys == Elements(order[..i])
      invariant Injective(ids)
      invariant forall k :: k in ids ==> ids[k] in newIds[..i]
    {
      assert order[..i + 1] == order[..i] + [order[i]];
      assert newIds[..i + 1] == newIds[..i] + [newIds[i]];
      assert newIds[i] !in newIds[..i];
      ids := ids[order[i] := newIds[i]];
    }
    assert order[..|order|] == order;
  }

  method RemoveCyclic(live: Live, ids: map<string, Id>)
    returns (accepted: seq<AgentSpec>, rejections: seq<Rejection>, cyclic: set<Id>)
    requires ResolvedLive(live, ids)
    ensures |accepted| + |rejections| == |live.order|
    ensures StrictOk(accepted)
    ensures forall k :: k in ids ==> (ids[k] in cyclic <==> OnOrAboveCycle(NeedEdges(live.table), k))
    ensures forall k, d :: k in live.table && d in live.table[k].dependencies ==> d in ids
    ensures forall s :: s in accepted <==>
        exists k :: k in ids && ids[k] !in cyclic && s == SpecOf(live.table[k], ids[k], ids)
  {
    assert forall k, d :: k in live.table && d in live.table[k].dependencies ==> d in live.table by {
      assert forall k :: k in live.table ==> ResolvedAt(live.table, k);
    }
    var specs := SpecsOf(live, ids);
    SpecsOfCorrect(live, ids);
    var built := BuildGraph(specs, false);
    var order;
    order, cyclic := Kahn(built.value.nodes, built.value.edges);
    IdsListIdSet(specs);
    accepted, rejections := SplitCyclic(specs, cyclic);
    AcyclicPartStrict(specs, cyclic, accepted);
    forall k | k in ids
      ensures ids[k] in cyclic <==> OnOrAboveCycle(NeedEdges(live.table), k)
    {
      SpecsRenaming(live, ids);
      StuckMeansCycle(NeedEdges(live.table), EdgesOf(specs), ids, k);
      KahnCorrect(IdSet(specs), EdgesOf(specs));
      assert ids[k] in IdSet(specs);
    }
    AcceptedListed(live, ids, specs, cyclic, accepted);
  }

  lemma AcceptedListed(live: Live, ids: map<string, Id>, specs: seq<AgentSpec>, cyclic: set<Id>,
      accepted: seq<AgentSpec>)
    requires ResolvedLive(live, ids)
    requires forall k, d :: k in live.table && d in live.table[k].dependencies ==> d in live.table
    requires specs == SpecsOf(live, ids)
    requires forall s :: s in accepted <==> s in specs && s.id !in cyclic
    ensures forall s :: s in accepted <==>
        exists k :: k in ids && ids[k] !in cyclic && s == SpecOf(live.table[k], ids[k], ids)
  {
    forall s
      ensures s in accepted <==> exists k :: k in ids && ids[k] !in cyclic && s == SpecOf(live.table[k], ids[k], ids)
    {
      if s in accepted {
        var i :| 0 <= i < |specs| && specs[i] == s;
        assert live.order[i] in Elements(live.order);
      }
      if k :| k in ids && ids[k] !in cyclic && s == SpecOf(live.table[k], ids[k], ids) {
        assert k in Elements(live.order);
        var i :| 0 <= i < |live.order| && live.order[i] == k;
        assert specs[i] == s;
      }
    }
  }

  method SplitCyclic(specs: seq<AgentSpec>, cyclic: set<Id>)
      returns (accepted: seq<AgentSpec>, rejections: seq<Rejection>)
    requires UniqueIds(specs)
    ensures |accepted| + |rejections| == |specs|
    ensures UniqueIds(accepted)
    ensures forall s :: s in accepted <==> s in specs && s.id !in cyclic
  {
    accepted, rejections := [], [];
    for i := 0 to |specs|
      invariant |accepted| + |rejections| == i
      invariant UniqueIds(accepted)
      invariant forall s :: s in accepted <==> s in specs[..i] && s.id !in cyclic
    {
      assert specs[..i + 1] == specs[..i] + [specs[i]];
      if specs[i].id in cyclic {
        rejections := rejections + [Rejection(specs[i].name, PartOfCycle)];
      } else {
        forall j | 0 <= j < |accepted|
          ensures accepted[j].id != specs[i].id
        {
          assert accepted[j] in accepted;
          var k :| 0 <= k < i && specs[k] == accepted[j];
        }
        accepted := accepted + [specs[i]];
      }
    }
    assert specs[..|specs|] == specs;
  }

  method ValidateSwarm(ps: seq<Proposal>, purposes: seq<string>, text: Text, threshold: real, newIds: seq<Id>)
    returns (accepted: seq<AgentSpec>, rejections: seq<Rejection>, merges: seq<Merge>, nameToId: map<string, Id>)
    requires Distinct(newIds) && |newIds| >= |ps|
    // Every proposal is accounted for exactly once.
    ensures |accepted| + |rejections| + |merges| == |ps|
    // The runner's strict graph construction cannot raise on the team.
    ensures StrictOk(accepted)
    ensures AcceptedFrom(accepted, nameToId, SettledTeam(ps, purposes, text, threshold))
  {
    var kept, gateRejections := RunGates(ps, purposes, text);
    GateAllCorrect(ps, purposes, text);
    var merged, alias;
    merged, alias, merges := MergeOwners(kept, text, threshold);
    MergeAllCorrect(kept, text, threshold);
    StartLiveValid(merged, text);
    var live, unresolved := ResolveDependencies(StartLive(merged, text), Names(text.norm, alias));
    SettleResolves(StartLive(merged, text), Names(text.norm, alias));
    var ids := AssignIds(live.order, newIds);
    var inCycle, cyclic;
    accepted, inCycle, cyclic := RemoveCyclic(live, ids);
    rejections := gateRejections + unresolved + inCycle;
    nameToId := map k | k in ids && ids[k] !in cyclic :: ids[k];
    AcceptedNames(accepted, nameToId, live, ids, cyclic);
  }

  // Nothing accepted depends on a removed name, so the surviving ids suffice.
  lemma AcceptedNames(accepted: seq<AgentSpec>, nameToId: map<string, Id>, live: Live, ids: map<string, Id>,
      cyclic: set<Id>)
    requires ResolvedLive(live, ids)
    requires forall k, d :: k in live.table && d in live.table[k].dependencies ==> d in ids
    requires forall k :: k in ids ==> (ids[k] in cyclic <==> OnOrAboveCycle(NeedEdges(live.table), k))
    requires nameToId == map k | k in ids && ids[k] !in cyclic :: ids[k]
    requires forall s :: s in accepted <==>
        exists k :: k in ids && ids[k] !in cyclic && s == SpecOf(live.table[k], ids[k], ids)
    ensures AcceptedFrom(accepted, nameToId, live)
  {
    var e := NeedEdges(live.table);
    forall k | k in nameToId
      ensures forall d :: d in live.table[k].dependencies ==> d in nameToId
      ensures forall s :: SpecFor(s, k, live, nameToId) <==> s == SpecOf(live.table[k], ids[k], ids)
    {
      forall d | d in live.table[k].dependencies
        ensures d in nameToId
      {
        assert d in Deps(e, k);
        if m :| ReachesOrIs(e, d, m) && Reaches(e, m, m) {
          EdgeThenReaches(e, k, d, m);
          assert OnOrAboveCycle(e, k);
        }
      }
      assert SpecOf(live.table[k], nameToId[k], nameToId).dependencies
          == SpecOf(live.table[k], ids[k], ids).dependencies;
    }
  }
}
