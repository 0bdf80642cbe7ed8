// What dependency resolution settles on: the greatest team whose members' needs
// are met inside it, for every proposal list exactly when normalizing a usable
// name twice is normalizing it once.
module GreatestTeam {
  import opened Models
  import opened Ordering
  import opened Factory
  import Schema

  // The keys a proposal needs, other than itself.
  ghost function Needs(start: map<string, Proposal>, names: Names, k: string): set<string>
    requires k in start
  {
    set d | d in start[k].dependencies && names.Key(d) != k :: names.Key(d)
  }

  ghost predicate ClosedTeam(start: map<string, Proposal>, names: Names, s: set<string>) {
    s <= start.Keys && forall k :: k in s ==> Needs(start, names, k) <= s
  }

  // The union of all closed teams.
  ghost function GreatestClosed(start: map<string, Proposal>, names: Names): set<string> {
    set k | k in start && InSomeClosedTeam(start, names, k)
  }

  ghost predicate InSomeClosedTeam(start: map<string, Proposal>, names: Names, k: string) {
    exists s :: ClosedTeam(start, names, s) && k in s
  }

  // Looking a looked-up name up again changes nothing, wherever it found something.
  ghost predicate StableNames(start: map<string, Proposal>, names: Names) {
    forall k, d :: k in start && d in start[k].dependencies && names.Key(d) in start ==>
        names.Key(names.Key(d)) == names.Key(d)
  }

  // A table entry is either untouched or already resolved to exactly what it needs.
  ghost predicate Faithful(start: map<string, Proposal>, table: map<string, Proposal>, names: Names) {
    table.Keys <= start.Keys && forall k :: k in table ==> FaithfulAt(start, table[k], names, k)
  }

  ghost predicate FaithfulAt(start: map<string, Proposal>, p: Proposal, names: Names, k: string)
    requires k in start
  {
    || p == start[k]
    || (p == start[k].(dependencies := p.dependencies) && ResolvedTo(start, p.dependencies, names, k))
  }

  ghost predicate ResolvedTo(start: map<string, Proposal>, deps: seq<string>, names: Names, k: string)
    requires k in start
  {
    Elements(deps) == Needs(start, names, k) && Needs(start, names, k) <= start.Keys
  }

  // Resolved or not, an entry still needs what it needed.
  lemma SameNeeds(start: map<string, Proposal>, p: Proposal, names: Names, k: string, x: string)
    requires k in start && StableNames(start, names) && FaithfulAt(start, p, names, k)
    ensures x in Needs(start, names, k) <==> x != k && exists d :: d in p.dependencies && names.Key(d) == x
  {
    if p != start[k] {
      forall d | d in p.dependencies
        ensures d in Needs(start, names, k) && names.Key(d) == d
      {
        assert d in Elements(p.dependencies);
      }
      if x in Needs(start, names, k) {
        assert x in Elements(p.dependencies);
      }
    }
  }

  lemma FaithfulLookup(start: map<string, Proposal>, p: Proposal, names: Names, k: string, live: set<string>)
    requires k in start && StableNames(start, names) && FaithfulAt(start, p, names, k) && live <= start.Keys
    ensures MissingDeps(p.dependencies, k, names, live) == [] <==> Needs(start, names, k) <= live
    ensures MissingDeps(p.dependencies, k, names, live) == [] ==>
      ResolvedTo(start, ResolvedDeps(p.dependencies, k, names, live), names, k)
  {
    var needs := Needs(start, names, k);
    forall x
      ensures x in needs <==> x != k && exists d :: d in p.dependencies && names.Key(d) == x
    {
      SameNeeds(start, p, names, k, x);
    }
    var missing := MissingDeps(p.dependencies, k, names, live);
    if needs <= live {
      forall d | d in p.dependencies && names.Key(d) != k
        ensures names.Key(d) in live
      {
        assert names.Key(d) in needs;
      }
    } else {
      var x :| x in needs && x !in live;
      var d :| d in p.dependencies && names.Key(d) == x;
      assert d in missing;
    }
    if missing == [] {
      assert Elements(ResolvedDeps(p.dependencies, k, names, live)) == needs;
    }
  }

  ghost predicate NeedsMet(start: map<string, Proposal>, names: Names, key: string, live: set<string>) {
    key in start && Needs(start, names, key) <= live
  }

  lemma FaithfulStep(start: map<string, Proposal>, table: map<string, Proposal>, key: string, names: Names)
    requires StableNames(start, names) && Faithful(start, table, names) && key in table
    ensures MissingDeps(table[key].dependencies, key, names, table.Keys) == []
        <==> NeedsMet(start, names, key, table.Keys)
    ensures MissingDeps(table[key].dependencies, key, names, table.Keys) == [] ==>
        Faithful(start, Rewritten(table, key, names), names)
  {
    FaithfulLookup(start, table[key], names, key, table.Keys);
  }

  // What a pass from position i tells about the needs of the entries it visits.
  ghost predicate PassTells(start: map<string, Proposal>, order: seq<string>, i: nat, live: set<string>, pass: Pass,
      names: Names) {
    && Faithful(start, pass.table, names)
    && (pass.Settled? ==> forall j :: i <= j < |order| ==> NeedsMet(start, names, order[j], live))
    && (pass.Orphan? ==> pass.at < |order| && !NeedsMet(start, names, order[pass.at], live))
  }

  lemma PassTellsEarlier(start: map<string, Proposal>, order: seq<string>, i: nat, live: set<string>, pass: Pass,
      names: Names)
    requires i < |order| && NeedsMet(start, names, order[i], live) && PassTells(start, order, i + 1, live, pass, names)
    ensures PassTells(start, order, i, live, pass, names)
  {
  }

  lemma {:induction false} ScanFaithful(start: map<string, Proposal>, order: seq<string>, table: map<string, Proposal>,
      i: nat, names: Names)
    requires i <= |order| && (forall k :: k in order ==> k in table)
    requires StableNames(start, names) && Faithful(start, table, names)
    ensures PassTells(start, order, i, table.Keys, Scan(order, table, i, names), names)
    decreases |order| - i
  {
    if i < |order| {
      FaithfulStep(start, table, order[i], names);
      ScanStep(order, table, i, names);
      if NeedsMet(start, names, order[i], table.Keys) {
        var next := Rewritten(table, order[i], names);
        ScanFaithful(start, order, next, i + 1, names);
        PassTellsEarlier(start, order, i, table.Keys, Scan(order, next, i + 1, names), names);
      }
    }
  }

  // Where a pass settles, the team is closed.
  lemma SettledIsClosed(start: map<string, Proposal>, live: Live, table: map<string, Proposal>, names: Names)
    requires live.Valid() && live.table.Keys <= start.Keys
    requires PassTells(start, live.order, 0, live.table.Keys, Settled(table), names)
    ensures live.table.Keys <= GreatestClosed(start, names)
  {
    forall k | k in live.table
      ensures Needs(start, names, k) <= live.table.Keys
    {
      assert k in Elements(live.order);
      var j :| 0 <= j < |live.order| && live.order[j] == k;
      assert NeedsMet(start, names, live.order[j], live.table.Keys);
    }
    assert ClosedTeam(start, names, live.table.Keys);
    assert forall k :: k in live.table ==> InSomeClosedTeam(start, names, k);
  }

  // What a pass rejects is in no closed team.
  lemma OrphanIsOutside(start: map<string, Proposal>, key: string, live: set<string>, names: Names)
    requires GreatestClosed(start, names) <= live && !NeedsMet(start, names, key, live)
    ensures key !in GreatestClosed(start, names)
  {
    forall s | ClosedTeam(start, names, s)
      ensures key !in s
    {
      assert forall k :: k in s ==> InSomeClosedTeam(start, names, k);
      assert s <= live;
    }
  }

  // With stable names the loop computes the greatest closed team, so the order
  // of the proposals and of the rejections cannot matter.
  lemma {:induction false} SettleIsGreatest(start: map<string, Proposal>, live: Live, names: Names)
    requires live.Valid() && StableNames(start, names) && Faithful(start, live.table, names)
    requires GreatestClosed(start, names) <= live.table.Keys
    ensures Settle(live, names).table.Keys == GreatestClosed(start, names)
    ensures Faithful(start, Settle(live, names).table, names)
    decreases |live.order|
  {
    OrderListsTable(live);
    ScanFaithful(start, live.order, live.table, 0, names);
    match Scan(live.order, live.table, 0, names)
    case Settled(table) => SettledIsClosed(start, live, table, names);
    case Orphan(at, table) =>
      OrphanIsOutside(start, live.order[at], live.table.Keys, names);
      RemoveAtElements(live, table, at);
      SettleIsGreatest(start, Live(RemoveAt(live.order, at), table - {live.order[at]}), names);
  }

  // ---------------------------------------------------------------- names that normalize to themselves

  // The normalized name of every proposal normalizes to itself.
  ghost predicate NormalKeys(ps: seq<Proposal>, text: Text) {
    forall k :: k in KeysOf(ps, text) ==> text.norm(k) == k
  }

  lemma StableFromNormal(ps: seq<Proposal>, text: Text, threshold: real)
    requires DistinctKeys(ps, text) && NormalKeys(ps, text)
    ensures var m := MergeAll(ps, text, threshold);
      StableNames(TableOf(m.merged, text), Names(text.norm, m.alias))
  {
    var m := MergeAll(ps, text, threshold);
    MergeAllCorrect(ps, text, threshold);
    TableOfCorrect(m.merged, text);
    forall u | u in KeysOf(m.merged, text)
      ensures Names(text.norm, m.alias).Key(u) == u
    {
      assert u in KeysOf(ps, text);
    }
  }

  // The table dependency resolution starts from, and how it looks names up.
  ghost function StartTable(ps: seq<Proposal>, purposes: seq<string>, text: Text, threshold: real): map<string,
      Proposal> {
    TableOf(MergeAll(GateAll(ps, purposes, text).kept, text, threshold).merged, text)
  }

  ghost function NamesUsed(ps: seq<Proposal>, purposes: seq<string>, text: Text, threshold: real): Names {
    Names(text.norm, MergeAll(GateAll(ps, purposes, text).kept, text, threshold).alias)
  }

  // The team that reaches the cycle check is the greatest one whose members'
  // needs are all met inside it.
  ghost predicate TeamIsGreatest(ps: seq<Proposal>, purposes: seq<string>, text: Text, threshold: real) {
    SettledTeam(ps, purposes, text, threshold).table.Keys
    == GreatestClosed(StartTable(ps, purposes, text, threshold), NamesUsed(ps, purposes, text, threshold))
  }

  // It is, whenever the names of the kept proposals are normal.
  lemma SettledTeamIsGreatest(ps: seq<Proposal>, purposes: seq<string>, text: Text, threshold: real)
    requires NormalKeys(GateAll(ps, purposes, text).kept, text)
    ensures TeamIsGreatest(ps, purposes, text, threshold)
  {
    var kept := GateAll(ps, purposes, text).kept;
    var m := MergeAll(kept, text, threshold);
    GateAllCorrect(ps, purposes, text);
    MergeAllCorrect(kept, text, threshold);
    StartLiveValid(m.merged, text);
    StableFromNormal(kept, text, threshold);
    SettleIsGreatest(TableOf(m.merged, text), StartLive(m.merged, text), Names(text.norm, m.alias));
  }

  // ---------------------------------------------------------------- names that do not

  lemma {:induction false} SettleShrinks(live: Live, names: Names)
    requires live.Valid()
    ensures Settle(live, names).table.Keys <= live.table.Keys
    decreases |live.order|
  {
    match Scan(live.order, live.table, 0, names)
    case Settled(table) =>
    case Orphan(at, table) =>
      RemoveAtElements(live, table, at);
      SettleShrinks(Live(RemoveAt(live.order, at), table - {live.order[at]}), names);
  }

  // A rejected key is gone from the settled table.
  lemma RejectionRestarts(live: Live, at: nat, table: map<string, Proposal>, names: Names)
    requires live.Valid() && at < |live.order| && Scan(live.order, live.table, 0, names) == Orphan(at, table)
    ensures Live(RemoveAt(live.order, at), table - {live.order[at]}).Valid()
    ensures Settle(live, names) == Settle(Live(RemoveAt(live.order, at), table - {live.order[at]}), names)
    ensures live.order[at] !in Settle(live, names).table
  {
    RemoveAtElements(live, table, at);
    SettleShrinks(Live(RemoveAt(live.order, at), table - {live.order[at]}), names);
  }

  // Three proposals: "first" needs "middle" under a name d that is looked up
  // differently the second time, and "last" needs something that is not there.
  ghost predicate Trap(table: map<string, Proposal>, names: Names, d: string, first: string, last: string) {
    var middle := names.Key(d);
    && first != middle && first != last && middle != last
    && table.Keys == {first, middle, last}
    && names.Key(middle) !in table
    && table[first].dependencies == [d] && table[middle].dependencies == [] && table[last].dependencies == [middle]
  }

  lemma OneDependency(d: string, key: string, names: Names, live: set<string>)
    ensures MissingDeps([d], key, names, live) == if names.Key(d) != key && names.Key(d) !in live then [d] else []
    ensures ResolvedDeps([d], key, names, live) == if names.Key(d) == key || names.Key(d) !in live then []
        else [names.Key(d)]
  {
    assert [d][..0] == [];
  }

  lemma NoDependency(key: string, names: Names, live: set<string>)
    ensures MissingDeps([], key, names, live) == [] && ResolvedDeps([], key, names, live) == []
  {
  }

  // "first" and "middle" together are all they need.
  lemma TrapClosed(table: map<string, Proposal>, names: Names, d: string, first: string, last: string)
    requires Trap(table, names, d, first, last)
    ensures ClosedTeam(table, names, {first, names.Key(d)})
  {
    assert forall x :: x in [d] <==> x == d;
    assert Needs(table, names, first) == {names.Key(d)};
    assert Needs(table, names, names.Key(d)) == {};
  }

  // The table with the one dependency of an entry written as a key.
  function Pointed(table: map<string, Proposal>, key: string, to: string): (r: map<string, Proposal>)
    requires key in table
    ensures r.Keys == table.Keys && r[key].dependencies == [to]
    ensures forall k :: k in table && k != key ==> r[k] == table[k]
  {
    table[key := table[key].(dependencies := [to])]
  }

  // A pass goes on over an entry without dependencies, or whose one dependency it
  // finds; it stops at one whose dependency it does not find.
  lemma ScanIdle(order: seq<string>, table: map<string, Proposal>, i: nat, names: Names)
    requires i < |order| && (forall k :: k in order ==> k in table) && table[order[i]].dependencies == []
    ensures Scan(order, table, i, names) == Scan(order, table, i + 1, names)
  {
    NoDependency(order[i], names, table.Keys);
    ScanStep(order, table, i, names);
    assert table[order[i] := table[order[i]].(dependencies := [])] == table;
  }

  lemma ScanFinds(order: seq<string>, table: map<string, Proposal>, i: nat, d: string, names: Names)
    requires i < |order| && (forall k :: k in order ==> k in table) && table[order[i]].dependencies == [d]
    requires names.Key(d) in table && names.Key(d) != order[i]
    ensures Scan(order, table, i, names) == Scan(order, Pointed(table, order[i], names.Key(d)), i + 1, names)
  {
    OneDependency(d, order[i], names, table.Keys);
    ScanStep(order, table, i, names);
  }

  lemma ScanMisses(order: seq<string>, table: map<string, Proposal>, i: nat, d: string, names: Names)
    requires i < |order| && (forall k :: k in order ==> k in table) && table[order[i]].dependencies == [d]
    requires names.Key(d) !in table
    ensures Scan(order, table, i, names) == Orphan(i, table)
  {
    OneDependency(d, order[i], names, table.Keys);
    ScanStep(order, table, i, names);
  }

  lemma IdleThen(order: seq<string>, table: map<string, Proposal>, i: nat, pass: Pass, names: Names)
    requires i < |order| && (forall k :: k in order ==> k in table) && table[order[i]].dependencies == []
    requires Scan(order, table, i + 1, names) == pass
    ensures Scan(order, table, i, names) == pass
  {
    ScanIdle(order, table, i, names);
  }

  lemma FindsThen(order: seq<string>, table: map<string, Proposal>, d: string, pass: Pass, names: Names)
    requires order != [] && (forall k :: k in order ==> k in table) && table[order[0]].dependencies == [d]
    requires names.Key(d) in table && names.Key(d) != order[0]
    requires Scan(order, Pointed(table, order[0], names.Key(d)), 1, names) == pass
    ensures Scan(order, table, 0, names) == pass
  {
    ScanFinds(order, table, 0, d, names);
  }

  lemma ScanEnds(order: seq<string>, table: map<string, Proposal>, names: Names)
    requires forall k :: k in order ==> k in table
    ensures Scan(order, table, |order|, names) == Settled(table)
  {
  }

  // The first pass resolves "first" and rejects "last".
  lemma TrapFirstScan(table: map<string, Proposal>, names: Names, d: string, first: string, last: string)
    requires Trap(table, names, d, first, last)
    ensures Scan([first, names.Key(d), last], table, 0, names) == Orphan(2, Pointed(table, first, names.Key(d)))
  {
    var middle := names.Key(d);
    var order, next := [first, middle, last], Pointed(table, first, middle);
    ScanMisses(order, next, 2, middle, names);
    IdleThen(order, next, 1, Orphan(2, next), names);
    FindsThen(order, table, d, Orphan(2, next), names);
  }

  // The second pass looks the second key up by itself, and rejects the first.
  lemma TrapSecondRejection(order: seq<string>, table: map<string, Proposal>, names: Names)
    requires |order| == 2 && Live(order, table).Valid() && forall k :: k in order ==> k in table
    requires table[order[0]].dependencies == [order[1]] && names.Key(order[1]) !in table
    ensures order[0] !in Settle(Live(order, table), names).table
  {
    ScanMisses(order, table, 0, order[1], names);
    RejectionRestarts(Live(order, table), 0, table, names);
  }

  lemma WithoutLast(order: seq<string>, table: map<string, Proposal>, n: nat)
    requires |order| == n + 1 && Live(order, table).Valid()
    ensures RemoveAt(order, n) == order[..n] && Distinct(order[..n])
    ensures forall k :: k in order[..n] ==> k in table - {order[n]}
    ensures Live(order[..n], table - {order[n]}).Valid()
  {
    RemoveAtElements(Live(order, table), table, n);
    OrderListsTable(Live(order[..n], table - {order[n]}));
  }

  // After a pass that rejected the last of three keys.
  lemma LastOfThreeRejected(order: seq<string>, table: map<string, Proposal>, next: map<string, Proposal>, names: Names)
    requires |order| == 3 && Live(order, table).Valid() && next.Keys == table.Keys && order[0] in next
    requires Scan(order, table, 0, names) == Orphan(2, next)
    requires next[order[0]].dependencies == [order[1]] && names.Key(order[1]) !in table
    ensures order[0] !in Settle(Live(order, table), names).table
  {
    RejectionRestarts(Live(order, table), 2, next, names);
    WithoutLast(order, next, 2);
    TrapSecondRejection(order[..2], next - {order[2]}, names);
  }

  lemma TrapValid(table: map<string, Proposal>, names: Names, d: string, first: string, last: string)
    requires Trap(table, names, d, first, last)
    ensures Live([first, names.Key(d), last], table).Valid()
  {
  }

  lemma TrapLosesFirst(table: map<string, Proposal>, names: Names, d: string, first: string, last: string)
    requires Trap(table, names, d, first, last)
    ensures var live := Live([first, names.Key(d), last], table); live.Valid() && first !in Settle(live, names).table
  {
    TrapValid(table, names, d, first, last);
    TrapFirstScan(table, names, d, first, last);
    LastOfThreeRejected([first, names.Key(d), last], table, Pointed(table, first, names.Key(d)), names);
  }

  // A closed team loses a member: whatever the names are, if one of them is
  // looked up differently the second time.
  lemma TrapLoses(table: map<string, Proposal>, names: Names, d: string, first: string, last: string)
    requires Trap(table, names, d, first, last)
    ensures var live := Live([first, names.Key(d), last], table);
      && live.Valid()
      && first in GreatestClosed(table, names) && first !in Settle(live, names).table
  {
    TrapClosed(table, names, d, first, last);
    assert InSomeClosedTeam(table, names, first);
    TrapLosesFirst(table, names, d, first, last);
  }

  // A proposal nothing speaks against.
  function Bare(name: string, owns: string, deps: seq<string>): Proposal {
    Proposal(name, "r", "o", "w", owns, [], deps, [], EMPTY_OBJECT, [], [], LOW)
  }

  const EMPTY_OBJECT := Obj(map["type" := Str("object"), "properties" := Obj(map[]),
      "additionalProperties" := Bool(false)])

  function TrapTable(names: Names, d: string): map<string, Proposal> {
    var middle := names.Key(d);
    var first, last := middle + names.Key(middle) + "a", middle + names.Key(middle) + "aa";
    map[first := Bare(first, "", [d]), middle := Bare(middle, "", []), last := Bare(last, "", [middle])]
  }

  lemma UnstableNamesLoseAMember(names: Names, d: string) returns (live: Live, lost: string)
    requires names.Key(names.Key(d)) != names.Key(d)
    ensures live.Valid()
    ensures lost in GreatestClosed(live.table, names) && lost !in Settle(live, names).table
  {
    var middle := names.Key(d);
    var first, last := middle + names.Key(middle) + "a", middle + names.Key(middle) + "aa";
    assert |first| > |middle| && |first| > |names.Key(middle)| && |last| == |first| + 1;
    TrapLoses(TrapTable(names, d), names, d, first, last);
    live, lost := Live([first, middle, last], TrapTable(names, d)), first;
  }

  ghost predicate SettlesGreatest(live: Live, names: Names) {
    live.Valid() ==> Settle(live, names).table.Keys == GreatestClosed(live.table, names)
  }

  // Dependency resolution settles on the greatest closed team, whatever it starts
  // from, exactly when looking a name up twice is looking it up once.
  lemma GreatestIffStable(names: Names)
    ensures (forall live :: SettlesGreatest(live, names)) <==> (forall d :: names.Key(names.Key(d)) == names.Key(d))
  {
    if d :| names.Key(names.Key(d)) != names.Key(d) {
      var live, lost := UnstableNamesLoseAMember(names, d);
      assert !SettlesGreatest(live, names);
    } else {
      forall live: Live
        ensures SettlesGreatest(live, names)
      {
        if live.Valid() {
          SettleIsGreatest(live.table, live, names);
        }
      }
    }
  }

  // ---------------------------------------------------------------- what is resolved to what

  // Every entry of the order is resolved to exactly what it needed at the start.
  ghost predicate AllResolvedTo(start: map<string, Proposal>, order: seq<string>, table: map<string, Proposal>,
      names: Names)
  {
    forall k :: k in order ==> k in start && k in table && ResolvedTo(start, table[k].dependencies, names, k)
  }

  lemma RewritingResolves(start: map<string, Proposal>, order: seq<string>, table: map<string, Proposal>, i: nat,
      names: Names)
    requires i < |order| && Distinct(order) && order[i] in table
    requires StableNames(start, names) && Faithful(start, table, names)
    requires NeedsMet(start, names, order[i], table.Keys) && AllResolvedTo(start, order[..i], table, names)
    ensures AllResolvedTo(start, order[..i + 1], Rewritten(table, order[i], names), names)
  {
    FaithfulLookup(start, table[order[i]], names, order[i], table.Keys);
    forall k | k in order[..i + 1]
      ensures k == order[i] || k in order[..i]
    {
      assert order[..i + 1] == order[..i] + [order[i]];
    }
  }

  lemma {:induction false} ScanResolvesTo(start: map<string, Proposal>, order: seq<string>,
      table: map<string, Proposal>, i: nat, names: Names)
    requires i <= |order| && Distinct(order) && (forall k :: k in order ==> k in table)
    requires StableNames(start, names) && Faithful(start, table, names)
    requires AllResolvedTo(start, order[..i], table, names) && Scan(order, table, i, names).Settled?
    ensures AllResolvedTo(start, order, Scan(order, table, i, names).table, names)
    decreases |order| - i
  {
    if i == |order| {
      assert order[..i] == order;
    } else {
      FaithfulStep(start, table, order[i], names);
      ScanStep(order, table, i, names);
      RewritingResolves(start, order, table, i, names);
      ScanResolvesTo(start, order, Rewritten(table, order[i], names), i + 1, names);
    }
  }

  lemma {:induction false} SettleResolvesTo(start: map<string, Proposal>, live: Live, names: Names)
    requires live.Valid() && StableNames(start, names) && Faithful(start, live.table, names)
    ensures AllResolvedTo(start, Settle(live, names).order, Settle(live, names).table, names)
    decreases |live.order|
  {
    OrderListsTable(live);
    match Scan(live.order, live.table, 0, names)
    case Settled(table) => ScanResolvesTo(start, live.order, live.table, 0, names);
    case Orphan(at, table) =>
      ScanFaithful(start, live.order, live.table, 0, names);
      RemoveAtElements(live, table, at);
      SettleResolvesTo(start, Live(RemoveAt(live.order, at), table - {live.order[at]}), names);
  }

  // Every settled dependency is the one that was named.
  ghost predicate SettlesAsNamed(live: Live, names: Names) {
    live.Valid() ==> AllResolvedTo(live.table, Settle(live, names).order, Settle(live, names).table, names)
  }

  // The four keys of a detour: the first needs the second, which is looked up as
  // the third the next time; the last needs something that is not there.
  ghost predicate Detour(order: seq<string>, table: map<string, Proposal>, names: Names, d: string, y: string) {
    && |order| == 4 && Live(order, table).Valid() && (forall k :: k in order ==> k in table)
    && names.Key(d) == order[1] && names.Key(order[1]) == order[2] && names.Key(y) !in table
    && table[order[0]].dependencies == [d] && table[order[3]].dependencies == [y]
    && table[order[1]].dependencies == [] && table[order[2]].dependencies == []
  }

  // The first pass resolves the first to the second, and rejects the last.
  lemma DetourFirstScan(order: seq<string>, table: map<string, Proposal>, names: Names, d: string, y: string)
    requires Detour(order, table, names, d, y)
    ensures Scan(order, table, 0, names) == Orphan(3, Pointed(table, order[0], order[1]))
  {
    var next := Pointed(table, order[0], order[1]);
    var pass := Orphan(3, next);
    ScanMisses(order, next, 3, y, names);
    IdleThen(order, next, 2, pass, names);
    IdleThen(order, next, 1, pass, names);
    FindsThen(order, table, d, pass, names);
  }

  // The second pass resolves it again, to the third, and settles.
  lemma DetourSecondScan(order: seq<string>, table: map<string, Proposal>, names: Names)
    requires |order| == 3 && Distinct(order) && forall k :: k in order ==> k in table
    requires table[order[0]].dependencies == [order[1]] && names.Key(order[1]) == order[2]
    requires table[order[1]].dependencies == [] && table[order[2]].dependencies == []
    ensures Scan(order, table, 0, names) == Settled(Pointed(table, order[0], order[2]))
  {
    var next := Pointed(table, order[0], order[2]);
    var pass := Settled(next);
    ScanEnds(order, next, names);
    IdleThen(order, next, 2, pass, names);
    IdleThen(order, next, 1, pass, names);
    FindsThen(order, table, order[1], pass, names);
  }

  lemma SettledAtOnce(live: Live, table: map<string, Proposal>, names: Names)
    requires live.Valid() && Scan(live.order, live.table, 0, names) == Settled(table)
    ensures Settle(live, names) == Live(live.order, table)
  {
  }

  lemma DetourSettles(order: seq<string>, table: map<string, Proposal>, names: Names, d: string, y: string)
    requires Detour(order, table, names, d, y)
    ensures var rest := Pointed(table, order[0], order[1]) - {order[3]};
      order[0] in rest && Settle(Live(order, table), names) == Live(order[..3], Pointed(rest, order[0], order[2]))
  {
    var next := Pointed(table, order[0], order[1]);
    DetourFirstScan(order, table, names, d, y);
    RejectionRestarts(Live(order, table), 3, next, names);
    WithoutLast(order, next, 3);
    DetourSecondScan(order[..3], next - {order[3]}, names);
    SettledAtOnce(Live(order[..3], next - {order[3]}), Pointed(next - {order[3]}, order[0], order[2]), names);
  }

  lemma DetourRedirects(order: seq<string>, table: map<string, Proposal>, names: Names, d: string, y: string)
    requires Detour(order, table, names, d, y)
    ensures !SettlesAsNamed(Live(order, table), names)
  {
    DetourSettles(order, table, names, d, y);
    assert order[0] == order[..3][0] && order[0] in order[..3];
    assert d in [d] && order[1] in Needs(table, names, order[0]);
    assert order[1] !in Elements([order[2]]);
  }

  // Some name is looked up as neither of two keys.
  ghost predicate HasThirdKey(names: Names, u: string, v: string) {
    exists y :: names.Key(y) != u && names.Key(y) != v
  }

  lemma SomeStartRedirects(names: Names, d: string) returns (live: Live)
    requires names.Key(names.Key(d)) != names.Key(d) && HasThirdKey(names, names.Key(d), names.Key(names.Key(d)))
    ensures !SettlesAsNamed(live, names)
  {
    var middle, other := names.Key(d), names.Key(names.Key(d));
    var y :| names.Key(y) != middle && names.Key(y) != other;
    var first := middle + other + names.Key(y) + "a";
    var last := first + "a";
    assert |first| > |middle| && |first| > |other| && |first| > |names.Key(y)| && |last| > |first|;
    var order := [first, middle, other, last];
    var table := map[first := Bare(first, "", [d]), middle := Bare(middle, "", []), other := Bare(other, "", []),
      last := Bare(last, "", [y])];
    live := Live(order, table);
    assert live.Valid();
    DetourRedirects(order, table, names, d, y);
  }

  // Whatever it starts from, dependency resolution resolves every dependency of a
  // settled member to the one it named, exactly when looking a name up twice is
  // looking it up once.
  lemma AsNamedIffStable(names: Names)
    requires forall u, v :: HasThirdKey(names, u, v)
    ensures (forall live :: SettlesAsNamed(live, names)) <==> (forall d :: names.Key(names.Key(d)) == names.Key(d))
  {
    if d :| names.Key(names.Key(d)) != names.Key(d) {
      assert HasThirdKey(names, names.Key(d), names.Key(names.Key(d)));
      var live := SomeStartRedirects(names, d);
    } else {
      forall live: Live
        ensures SettlesAsNamed(live, names)
      {
        if live.Valid() {
          SettleResolvesTo(live.table, live, names);
        }
      }
    }
  }

  // ---------------------------------------------------------------- the same for proposals

  // A key that a proposal can have.
  predicate Usable(key: string) {
    key != "" && key !in RESERVED_NAMES
  }

  ghost predicate NothingAgainst(ps: seq<Proposal>, text: Text) {
    && DistinctKeys(ps, text)
    && forall p :: p in ps ==> Usable(text.norm(p.name)) && p.allowedTools == [] && p.outputSchema == EMPTY_OBJECT
  }

  lemma EmptyObjectAccepted()
    ensures Schema.ValidateSchema(EMPTY_OBJECT)
  {
  }

  lemma {:induction false} AllKept(ps: seq<Proposal>, text: Text)
    requires NothingAgainst(ps, text)
    ensures GateAll(ps, [], text) == Gated(ps, [])
  {
    if ps != [] {
      var rest, p := ps[..|ps| - 1], ps[|ps| - 1];
      assert ps == rest + [p];
      AllKept(rest, text);
      EmptyObjectAccepted();
      assert Gate(p, KeysOf(rest, text), [], text) == None;
    }
  }

  ghost predicate OwnersApart(ps: seq<Proposal>, text: Text, threshold: real) {
    forall i, j :: 0 <= i < j < |ps| ==> text.overlap(ps[j].owns, ps[i].owns) < threshold
  }

  lemma {:induction false} NothingMerges(ps: seq<Proposal>, text: Text, threshold: real)
    requires OwnersApart(ps, text, threshold)
    ensures MergeAll(ps, text, threshold) == Merging(ps, map[], [])
  {
    if ps != [] {
      var rest, p := ps[..|ps| - 1], ps[|ps| - 1];
      assert ps == rest + [p];
      NothingMerges(rest, text, threshold);
      assert OverlapAt(p, rest, 0, text, threshold).None?;
    }
  }

  // Three ownership statements of which no two are about the same thing.
  predicate ApartOwners(owners: (string, string, string), text: Text, threshold: real) {
    && text.overlap(owners.1, owners.0) < threshold
    && text.overlap(owners.2, owners.0) < threshold
    && text.overlap(owners.2, owners.1) < threshold
  }

  function TrapTeam(first: string, name: string, last: string, owners: (string, string, string),
      text: Text): seq<Proposal> {
    [Bare(first, owners.0, [name]), Bare(name, owners.1, []), Bare(last, owners.2, [text.norm(name)])]
  }

  // Two more names, for proposals with keys of their own.
  predicate MoreNames(first: string, name: string, last: string, text: Text) {
    var a, middle, z := text.norm(first), text.norm(name), text.norm(last);
    && Usable(a) && Usable(middle) && Usable(z)
    && a != middle && a != z && middle != z && text.norm(middle) != a && text.norm(middle) != z
  }

  lemma TrapTeamTable(first: string, name: string, last: string, owners: (string, string, string), text: Text)
    requires MoreNames(first, name, last, text)
    ensures var ps := TrapTeam(first, name, last, owners, text); var live := StartLive(ps, text);
      && live.order == [text.norm(first), text.norm(name), text.norm(last)]
      && live.table == map[text.norm(first) := ps[0], text.norm(name) := ps[1], text.norm(last) := ps[2]]
  {
    var ps := TrapTeam(first, name, last, owners, text);
    assert ps[..2] == [ps[0], ps[1]] && ps[..2][..1] == [ps[0]] && [ps[0]][..0] == [];
    assert TableOf([], text) == map[];
    assert TableOf([ps[0]], text) == map[text.norm(first) := ps[0]];
    assert TableOf([ps[0], ps[1]], text) == map[text.norm(first) := ps[0], text.norm(name) := ps[1]];
  }

  lemma TrapTeamSprings(first: string, name: string, last: string, owners: (string, string, string), text: Text)
    requires MoreNames(first, name, last, text) && text.norm(text.norm(name)) != text.norm(name)
    ensures Trap(StartLive(TrapTeam(first, name, last, owners, text), text).table, Names(text.norm, map[]), name,
                 text.norm(first), text.norm(last))
  {
    TrapTeamTable(first, name, last, owners, text);
  }

  // The gates keep the whole list, and nothing is merged.
  lemma TrapTeamStarts(first: string, name: string, last: string, owners: (string, string, string), text: Text,
      threshold: real)
    requires MoreNames(first, name, last, text) && ApartOwners(owners, text, threshold)
    ensures var ps := TrapTeam(first, name, last, owners, text);
      && StartTable(ps, [], text, threshold) == TableOf(ps, text)
      && NamesUsed(ps, [], text, threshold) == Names(text.norm, map[])
      && SettledTeam(ps, [], text, threshold) == SettledFrom(ps, text)
  {
    var ps := TrapTeam(first, name, last, owners, text);
    AllKept(ps, text);
    NothingMerges(ps, text, threshold);
    TrapTeamKeys(first, name, last, owners, text);
  }

  lemma TrapTeamKeys(first: string, name: string, last: string, owners: (string, string, string), text: Text)
    requires MoreNames(first, name, last, text)
    ensures NothingAgainst(TrapTeam(first, name, last, owners, text), text)
  {
  }

  // Dependency resolution on a list as it is, without aliases.
  ghost function SettledFrom(ps: seq<Proposal>, text: Text): Live {
    if DistinctKeys(ps, text) then
      StartLiveValid(ps, text);
      Settle(StartLive(ps, text), Names(text.norm, map[]))
    else
      StartLive(ps, text)
  }

  // A list of proposals the validation receives and keeps, and whose first member
  // it then loses though everything it needs is there.
  lemma ProposalsLoseAMember(first: string, name: string, last: string, owners: (string, string, string), text: Text,
      threshold: real)
    requires MoreNames(first, name, last, text) && ApartOwners(owners, text, threshold)
    requires text.norm(text.norm(name)) != text.norm(name)
    ensures var ps := TrapTeam(first, name, last, owners, text);
      && text.norm(first) in GreatestClosed(StartTable(ps, [], text, threshold), NamesUsed(ps, [], text, threshold))
      && text.norm(first) !in SettledTeam(ps, [], text, threshold).table
  {
    var ps := TrapTeam(first, name, last, owners, text);
    TrapTeamStarts(first, name, last, owners, text, threshold);
    TrapTeamTable(first, name, last, owners, text);
    TrapTeamSprings(first, name, last, owners, text);
    TrapTeamKeys(first, name, last, owners, text);
    TrapLoses(TableOf(ps, text), Names(text.norm, map[]), name, text.norm(first), text.norm(last));
  }

  ghost predicate RoomBeside(name: string, text: Text) {
    Usable(text.norm(name)) ==> exists first, last :: MoreNames(first, name, last, text)
  }

  // Names and ownership statements do not run out.
  ghost predicate Roomy(text: Text, threshold: real) {
    && (forall name :: RoomBeside(name, text))
    && (exists owners :: ApartOwners(owners, text, threshold))
  }

  predicate NormalizedAtOnce(name: string, text: Text) {
    Usable(text.norm(name)) ==> text.norm(text.norm(name)) == text.norm(name)
  }

  ghost predicate NormalizesAtOnce(text: Text) {
    forall name :: NormalizedAtOnce(name, text)
  }

  lemma KeptKeysNormal(ps: seq<Proposal>, purposes: seq<string>, text: Text)
    requires NormalizesAtOnce(text)
    ensures NormalKeys(GateAll(ps, purposes, text).kept, text)
  {
    var kept := GateAll(ps, purposes, text).kept;
    GateAllCorrect(ps, purposes, text);
    forall k | k in KeysOf(kept, text)
      ensures text.norm(k) == k
    {
      var i :| 0 <= i < |kept| && text.norm(kept[i].name) == k;
      assert kept[i] in kept && Gate(kept[i], {}, purposes, text) == None;
      assert NormalizedAtOnce(kept[i].name, text);
    }
  }

  lemma SomeTeamIsNotGreatest(text: Text, threshold: real) returns (ps: seq<Proposal>)
    requires Roomy(text, threshold) && !NormalizesAtOnce(text)
    ensures !TeamIsGreatest(ps, [], text, threshold)
  {
    var name :| !NormalizedAtOnce(name, text);
    assert RoomBeside(name, text);
    var first, last :| MoreNames(first, name, last, text);
    var owners :| ApartOwners(owners, text, threshold);
    ProposalsLoseAMember(first, name, last, owners, text, threshold);
    ps := TrapTeam(first, name, last, owners, text);
  }

  // The team that reaches the cycle check is the greatest closed one, for every
  // list of proposals and every list of prohibited purposes, exactly when
  // normalizing a usable name twice is normalizing it once.
  lemma TeamsGreatestIff(text: Text, threshold: real)
    requires Roomy(text, threshold)
    ensures (forall ps, purposes :: TeamIsGreatest(ps, purposes, text, threshold)) <==> NormalizesAtOnce(text)
  {
    if NormalizesAtOnce(text) {
      forall ps, purposes
        ensures TeamIsGreatest(ps, purposes, text, threshold)
      {
        KeptKeysNormal(ps, purposes, text);
        SettledTeamIsGreatest(ps, purposes, text, threshold);
      }
    } else {
      var ps := SomeTeamIsNotGreatest(text, threshold);
    }
  }

  // ---------------------------------------------------------------- the program's normalization

  function RemovePrefix(s: string, prefix: string): string {
    if prefix <= s then s[|prefix|..] else s
  }

  function RemoveSuffix(s: string, suffix: string): string {
    if |suffix| <= |s| && s[|s| - |suffix|..] == suffix then s[..|s| - |suffix|] else s
  }

  // The normalization on a name that is already trimmed, lower-case and single-spaced.
  function NormTidyName(name: string): string {
    RemoveSuffix(RemovePrefix(RemovePrefix(name, "the "), "main "), " agent")
  }

  lemma NormFacts()
    ensures NormTidyName("the the b") == "the b"
    ensures NormTidyName("the b") == "b"
    ensures NormTidyName("a") == "a" && NormTidyName("z") == "z"
  {
    assert "the the b"[|"the "|..] == "the b";
    assert "main "[0] != "the b"[0];
    assert !("main " <= "the b");
    assert "the b"[|"the "|..] == "b";
  }

  const EXAMPLE_TEXT := Text(NormTidyName, s => s, s => s, (a, b) => if a == b then 1.0 else 0.0)

  function Qs(n: nat): (s: string)
    ensures |s| == n && forall i :: 0 <= i < n ==> s[i] == 'q'
  {
    seq(n, i => 'q')
  }

  lemma QsAreNormal(n: nat)
    requires n > 0
    ensures NormTidyName(Qs(n)) == Qs(n) && Usable(Qs(n))
  {
    var s := Qs(n);
    assert "the "[0] != s[0] && "main "[0] != s[0];
    assert !("the " <= s) && !("main " <= s);
    if |" agent"| <= n {
      assert s[n - |" agent"|..][0] == s[n - |" agent"|] && " agent"[0] != 'q';
    }
    assert forall k :: k in RESERVED_NAMES ==> k[0] != 'q';
  }

  lemma LongNamesHelp(name: string, text: Text, n: nat)
    requires text.norm(Qs(n)) == Qs(n) && text.norm(Qs(n + 1)) == Qs(n + 1) && Usable(Qs(n)) && Usable(Qs(n + 1))
    requires n > |text.norm(name)| && n > |text.norm(text.norm(name))|
    ensures RoomBeside(name, text)
  {
    assert Usable(text.norm(name)) ==> MoreNames(Qs(n), name, Qs(n + 1), text);
  }

  // Such a text has room, so its failure is one the theorem is about.
  lemma ExampleTextIsRoomy()
    ensures Roomy(EXAMPLE_TEXT, 0.6)
  {
    forall name
      ensures RoomBeside(name, EXAMPLE_TEXT)
    {
      var n := |EXAMPLE_TEXT.norm(name)| + |EXAMPLE_TEXT.norm(EXAMPLE_TEXT.norm(name))| + 1;
      QsAreNormal(n);
      QsAreNormal(n + 1);
      LongNamesHelp(name, EXAMPLE_TEXT, n);
    }
    assert ApartOwners(("x", "y", "w"), EXAMPLE_TEXT, 0.6);
  }

  // "a" depends on "the the b", which is proposed. When "z" is rejected for a
  // dependency of its own, the scan restarts, looks "the b" up as "b", and
  // rejects "a" as well.
  lemma ExampleTeamLosesAMember()
    ensures var ps := TrapTeam("a", "the the b", "z", ("x", "y", "w"), EXAMPLE_TEXT);
      && "a" in GreatestClosed(StartTable(ps, [], EXAMPLE_TEXT, 0.6), NamesUsed(ps, [], EXAMPLE_TEXT, 0.6))
      && "a" !in SettledTeam(ps, [], EXAMPLE_TEXT, 0.6).table
  {
    NormFacts();
    assert "a" != "the b" && "a" != "z" && "the b" != "z" && "b" != "a" && "b" != "z";
    ProposalsLoseAMember("a", "the the b", "z", ("x", "y", "w"), EXAMPLE_TEXT, 0.6);
  }
}
