// Evidence claims and their reconciliation, as functions of a whole store.
module Evidence {
  import opened Graph
  import opened Models
  import opened Ordering

  datatype SourceType = WEB | PHONE | USER | DERIVED | FIXTURE | SIMULATED

  datatype EvidenceStatus = UNKNOWN | WEB_SUPPORTED | PHONE_SUPPORTED | MULTI_SOURCE_SUPPORTED | CONFLICTED | STALE
      | REJECTED

  datatype Claim = Claim(
    id: Id,
    missionId: Id,
    subject: string,
    attribute: string,
    value: Json,
    sourceType: SourceType,
    sourceReference: string,
    timestamp: int,
    status: EvidenceStatus,
    conflicts: seq<Id>,
    derivedFrom: seq<Id>,
    simulatedLineage: bool,
    statusReason: Option<string>,
    supersededBy: Option<Id>)

  // The text library: subject and predicate normalization, lower-casing, the
  // comparable form of a value, the base of a source reference, strip, and the
  // printed form of a timestamp.
  datatype Text = Text(
    normSubject: string -> string,
    lower: string -> string,
    normPredicate: string -> string,
    canonical: Json -> string,
    baseReference: string -> string,
    strip: string -> string,
    isoformat: int -> string)

  const NON_ATTRIBUTE_PREDICATES := {"call_summary", "call_evidence"}

  datatype Key = Key(missionId: Id, subject: string, attribute: string)

  function GroupKey(c: Claim, t: Text): Key {
    Key(c.missionId, t.lower(t.normSubject(c.subject)), t.normPredicate(c.attribute))
  }

  function SourceKey(c: Claim, t: Text): (SourceType, string) {
    (c.sourceType, t.baseReference(c.sourceReference))
  }

  predicate Active(st: EvidenceStatus) {
    st != STALE && st != REJECTED
  }

  predicate IsAttribute(c: Claim, t: Text) {
    t.normPredicate(c.attribute) !in NON_ATTRIBUTE_PREDICATES && c.sourceType != DERIVED
  }

  // Takes part in reconciliation.
  predicate Counts(c: Claim, t: Text) {
    Active(c.status) && IsAttribute(c, t)
  }

  function SingleSourceStatus(st: SourceType): EvidenceStatus {
    match st
    case PHONE => PHONE_SUPPORTED
    case SIMULATED => PHONE_SUPPORTED
    case WEB => WEB_SUPPORTED
    case FIXTURE => WEB_SUPPORTED
    case _ => UNKNOWN
  }

  // ---------------------------------------------------------------- reconciliation of one list

  function ActiveOf(claims: seq<Claim>, t: Text): seq<Claim> {
    Filter(claims, (c: Claim) => Counts(c, t))
  }

  function IdsOf(claims: seq<Claim>): set<Id> {
    set c | c in claims :: c.id
  }

  function Values(claims: seq<Claim>, t: Text): set<string> {
    set x | x in claims :: t.canonical(x.value)
  }

  function Sources(claims: seq<Claim>, t: Text): set<(SourceType, string)> {
    set x | x in claims :: SourceKey(x, t)
  }

  function Verdict(active: seq<Claim>, c: Claim, t: Text): (EvidenceStatus, seq<Id>) {
    if |Values(active, t)| > 1 then
      (CONFLICTED, Sorted(IdsOf(active) - {c.id}))
    else if |Sources(active, t)| >= 2 then
      (MULTI_SOURCE_SUPPORTED, [])
    else
      (SingleSourceStatus(c.sourceType), [])
  }

  function Updated(c: Claim, verdict: (EvidenceStatus, seq<Id>)): Claim {
    c.(status := verdict.0, conflicts := verdict.1)
  }

  // A claim of the group as the whole list says it should be.
  function Judge(active: seq<Claim>, t: Text): Claim -> Claim {
    c => Updated(c, Verdict(active, c, t))
  }

  // Copies of the members of `claims` whose status or cross-links are not what
  // `judge` says they should be.
  function Updates(claims: seq<Claim>, judge: Claim -> Claim): seq<Claim> {
    if claims == [] then [] else
      var before := Updates(claims[..|claims| - 1], judge);
      var c := claims[|claims| - 1];
      if judge(c) != c then before + [judge(c)] else before
  }

  function ReconcileGroup(claims: seq<Claim>, t: Text): seq<Claim> {
    var active := ActiveOf(claims, t);
    Updates(active, Judge(active, t))
  }

  // ---------------------------------------------------------------- the same over a store

  type Store = map<Id, Claim>

  ghost predicate IdsMatch(s: Store) {
    forall i :: i in s ==> s[i].id == i
  }

  ghost function Members(s: Store, key: Key, t: Text): set<Id> {
    set i | i in s && Counts(s[i], t) && GroupKey(s[i], t) == key
  }

  // Two counted claims of the group state different values.
  ghost predicate Disagrees(s: Store, key: Key, t: Text) {
    exists a, b :: a in Members(s, key, t) && b in Members(s, key, t)
        && t.canonical(s[a].value) != t.canonical(s[b].value)
  }

  // Two counted claims of the group come from different sources.
  ghost predicate Corroborated(s: Store, key: Key, t: Text) {
    exists a, b :: a in Members(s, key, t) && b in Members(s, key, t) && SourceKey(s[a], t) != SourceKey(s[b], t)
  }

  // What a counted claim should look like, given the whole store.
  ghost function Wanted(s: Store, i: Id, t: Text): (EvidenceStatus, seq<Id>)
    requires i in s
  {
    var key := GroupKey(s[i], t);
    if Disagrees(s, key, t) then (CONFLICTED, Sorted(Members(s, key, t) - {i}))
    else if Corroborated(s, key, t) then (MULTI_SOURCE_SUPPORTED, [])
    else (SingleSourceStatus(s[i].sourceType), [])
  }

  ghost predicate SettledAt(s: Store, i: Id, t: Text)
    requires i in s
  {
    Counts(s[i], t) ==> (s[i].status, s[i].conflicts) == Wanted(s, i, t)
  }

  ghost predicate Reconciled(s: Store, t: Text) {
    forall i :: i in s ==> SettledAt(s, i, t)
  }

  // A list holding exactly the claims of a group.
  ghost predicate Lists(claims: seq<Claim>, s: Store, key: Key, t: Text) {
    && Distinct(claims)
    && (forall c :: c in claims <==> c.id in s && s[c.id] == c && GroupKey(c, t) == key)
  }

  lemma TwoElements<T>(a: set<T>)
    ensures |a| > 1 <==> exists x, y :: x in a && y in a && x != y
  {
    if |a| > 1 {
      var x :| x in a;
      assert |a - {x}| > 0;
      var y :| y in a - {x};
    }
    if x, y :| x in a && y in a && x != y {
      assert |{x, y}| == 2;
      SubsetCount({x, y}, a);
    }
  }

  lemma ListedMembers(claims: seq<Claim>, s: Store, key: Key, t: Text)
    requires IdsMatch(s) && Lists(claims, s, key, t)
    ensures IdsOf(ActiveOf(claims, t)) == Members(s, key, t)
    ensures forall c :: c in ActiveOf(claims, t) <==> c.id in Members(s, key, t) && s[c.id] == c
  {
    var active := ActiveOf(claims, t);
    forall i | i in Members(s, key, t)
      ensures i in IdsOf(active) && s[i] in active
    {
      assert s[i].id in s && s[i] in claims;
    }
  }

  lemma TwoValues(claims: seq<Claim>, t: Text)
    ensures |Values(claims, t)| > 1 <==>
      exists a, b :: a in claims && b in claims && t.canonical(a.value) != t.canonical(b.value)
  {
    TwoElements(Values(claims, t));
    if a, b :| a in claims && b in claims && t.canonical(a.value) != t.canonical(b.value) {
      assert t.canonical(a.value) in Values(claims, t) && t.canonical(b.value) in Values(claims, t);
    }
  }

  lemma TwoSources(claims: seq<Claim>, t: Text)
    ensures |Sources(claims, t)| > 1 <==>
        exists a, b :: a in claims && b in claims && SourceKey(a, t) != SourceKey(b, t)
  {
    TwoElements(Sources(claims, t));
    if a, b :| a in claims && b in claims && SourceKey(a, t) != SourceKey(b, t) {
      assert SourceKey(a, t) in Sources(claims, t) && SourceKey(b, t) in Sources(claims, t);
    }
  }

  lemma ListedDisagreement(claims: seq<Claim>, s: Store, key: Key, t: Text)
    requires IdsMatch(s) && Lists(claims, s, key, t)
    ensures |Values(ActiveOf(claims, t), t)| > 1 <==> Disagrees(s, key, t)
  {
    var active := ActiveOf(claims, t);
    ListedMembers(claims, s, key, t);
    TwoValues(active, t);
    if Disagrees(s, key, t) {
      var a, b :| a in Members(s, key, t) && b in Members(s, key, t)
          && t.canonical(s[a].value) != t.canonical(s[b].value);
      assert s[a] in active && s[b] in active;
    }
  }

  lemma ListedCorroboration(claims: seq<Claim>, s: Store, key: Key, t: Text)
    requires IdsMatch(s) && Lists(claims, s, key, t)
    ensures |Sources(ActiveOf(claims, t), t)| > 1 <==> Corroborated(s, key, t)
  {
    var active := ActiveOf(claims, t);
    ListedMembers(claims, s, key, t);
    TwoSources(active, t);
    if Corroborated(s, key, t) {
      var a, b :| a in Members(s, key, t) && b in Members(s, key, t) && SourceKey(s[a], t) != SourceKey(s[b], t);
      assert s[a] in active && s[b] in active;
    }
  }

  // The verdict computed from any listing of a group is the one the store implies.
  lemma VerdictIsWanted(claims: seq<Claim>, s: Store, key: Key, t: Text, c: Claim)
    requires IdsMatch(s) && Lists(claims, s, key, t) && c in ActiveOf(claims, t)
    ensures c.id in s && s[c.id] == c && Verdict(ActiveOf(claims, t), c, t) == Wanted(s, c.id, t)
  {
    ListedMembers(claims, s, key, t);
    ListedDisagreement(claims, s, key, t);
    ListedCorroboration(claims, s, key, t);
  }

  predicate AsJudged(c: Claim, active: seq<Claim>, t: Text) {
    (c.status, c.conflicts) == Verdict(active, c, t)
  }

  lemma UpdatedSame(c: Claim, active: seq<Claim>, t: Text)
    ensures Updated(c, Verdict(active, c, t)) == c <==> AsJudged(c, active, t)
  {
    var verdict := Verdict(active, c, t);
    assert Updated(c, verdict).status == verdict.0 && Updated(c, verdict).conflicts == verdict.1;
  }

  lemma {:induction false} UpdatesEmpty(claims: seq<Claim>, judge: Claim -> Claim)
    ensures Updates(claims, judge) == [] <==> forall c :: c in claims ==> judge(c) == c
  {
    if claims != [] {
      UpdatesEmpty(claims[..|claims| - 1], judge);
      assert claims == claims[..|claims| - 1] + [claims[|claims| - 1]];
    }
  }

  // Recomputing a group from scratch finds nothing to change exactly when every
  // counted claim of the group already looks as the store implies.
  lemma NothingToReconcile(claims: seq<Claim>, s: Store, key: Key, t: Text)
    requires IdsMatch(s) && Lists(claims, s, key, t)
    ensures ReconcileGroup(claims, t) == [] <==> forall i :: i in Members(s, key, t) ==> SettledAt(s, i, t)
  {
    var active := ActiveOf(claims, t);
    UpdatesEmpty(active, Judge(active, t));
    ListedMembers(claims, s, key, t);
    forall c | c in active
      ensures c.id in s && s[c.id] == c
      ensures Judge(active, t)(c) == c <==> (c.status, c.conflicts) == Wanted(s, c.id, t)
    {
      VerdictIsWanted(claims, s, key, t, c);
      UpdatedSame(c, active, t);
    }
    forall i | i in Members(s, key, t)
      ensures s[i] in active && s[i].id == i
    {
    }
  }

  // ---------------------------------------------------------------- settling whole groups

  ghost function SettleKeys(s: Store, keys: set<Key>, t: Text): Store {
    map i | i in s :: if Counts(s[i], t) && GroupKey(s[i], t) in keys then Updated(s[i], Wanted(s, i, t)) else s[i]
  }

  // Only status, cross-links and their explanation differ.
  ghost predicate SameContent(a: Claim, b: Claim) {
    a == b.(status := a.status, conflicts := a.conflicts, statusReason := a.statusReason,
        supersededBy := a.supersededBy)
  }

  // The two stores hold the same counted claims under a key.
  ghost predicate SameGroup(s: Store, r: Store, key: Key, t: Text) {
    && Members(s, key, t) == Members(r, key, t)
    && forall i :: i in Members(s, key, t) ==> SameContent(s[i], r[i])
  }

  lemma SameGroupWanted(s: Store, r: Store, key: Key, t: Text, i: Id)
    requires SameGroup(s, r, key, t) && i in Members(s, key, t)
    ensures Wanted(s, i, t) == Wanted(r, i, t)
  {
    assert forall a :: a in Members(s, key, t) ==> s[a].value == r[a].value && SourceKey(s[a], t) == SourceKey(r[a], t);
    assert GroupKey(s[i], t) == GroupKey(r[i], t) == key;
    assert Disagrees(s, key, t) <==> Disagrees(r, key, t);
    assert Corroborated(s, key, t) <==> Corroborated(r, key, t);
  }

  lemma SettledActive(s: Store, i: Id, t: Text)
    requires i in s
    ensures Active(Wanted(s, i, t).0)
  {
  }

  lemma SettleSameGroup(s: Store, keys: set<Key>, t: Text, key: Key)
    ensures SameGroup(s, SettleKeys(s, keys, t), key, t)
  {
    var r := SettleKeys(s, keys, t);
    forall i | i in s
      ensures SameContent(s[i], r[i]) && Counts(r[i], t) == Counts(s[i], t) && GroupKey(r[i], t) == GroupKey(s[i], t)
    {
      SettledActive(s, i, t);
    }
  }

  // Settling the touched groups reconciles the store when nothing else was off.
  lemma SettleReconciles(s: Store, keys: set<Key>, t: Text)
    requires forall i :: i in s && GroupKey(s[i], t) !in keys ==> SettledAt(s, i, t)
    ensures Reconciled(SettleKeys(s, keys, t), t)
  {
    var r := SettleKeys(s, keys, t);
    forall i | i in r && Counts(r[i], t)
      ensures SettledAt(r, i, t)
    {
      var key := GroupKey(r[i], t);
      SettleSameGroup(s, keys, t, key);
      assert i in Members(r, key, t);
      SameGroupWanted(s, r, key, t, i);
    }
  }

  // ---------------------------------------------------------------- the operations on a store

  predicate BlankReference(c: Claim, t: Text) {
    t.strip(c.sourceReference) == ""
  }

  predicate SimulatedType(st: SourceType) {
    st == FIXTURE || st == SIMULATED
  }

  function Normalized(c: Claim, source: string, t: Text): Claim {
    c.(subject := t.normSubject(c.subject),
       attribute := t.normPredicate(c.attribute),
       simulatedLineage := c.simulatedLineage || SimulatedType(c.sourceType),
       sourceReference := if BlankReference(c, t) then source else c.sourceReference)
  }

  // An older claim of the same source about the same thing.
  predicate Supersedes(c: Claim, older: Claim, t: Text) {
    && IsAttribute(c, t)
    && GroupKey(older, t) == GroupKey(c, t)
    && older.id != c.id
    && Active(older.status)
    && SourceKey(older, t) == SourceKey(c, t)
    && older.timestamp <= c.timestamp
  }

  function SupersededBy(older: Claim, c: Claim): Claim {
    older.(status := STALE, statusReason := Some("superseded by claim " + c.id), supersededBy := Some(c.id),
        conflicts := [])
  }

  // One claim of a batch enters the store.
  function Entered(s: Store, c: Claim, t: Text): Store {
    (map i | i in s :: if Supersedes(c, s[i], t) then SupersededBy(s[i], c) else s[i])[c.id := c]
  }

  function EnteredAll(s: Store, batch: seq<Claim>, t: Text): Store {
    if batch == [] then s else Entered(EnteredAll(s, batch[..|batch| - 1], t), batch[|batch| - 1], t)
  }

  function TouchedKeys(batch: seq<Claim>, t: Text): set<Key> {
    set c | c in batch :: GroupKey(c, t)
  }

  ghost function Ingested(s: Store, batch: seq<Claim>, t: Text): Store {
    SettleKeys(EnteredAll(s, batch, t), TouchedKeys(batch, t), t)
  }

  function MadeStale(c: Claim, reason: string, newer: Option<Id>): Claim {
    c.(status := STALE, statusReason := Some(reason), supersededBy := newer, conflicts := [])
  }

  function Rejected(c: Claim, reason: string): Claim {
    c.(status := REJECTED, statusReason := Some(reason), conflicts := [])
  }

  // A store in which some claims were retired, each into an inactive copy of itself.
  ghost predicate Retired(s: Store, r: Store, touched: set<Key>, t: Text) {
    && r.Keys == s.Keys
    && forall i :: i in s ==>
         r[i] == s[i]
         || (SameContent(s[i], r[i]) && !Active(r[i].status) && r[i].conflicts == [] && GroupKey(s[i], t) in touched)
  }

  // What no operation ever does: delete a claim, change what it says, or
  // bring a STALE or REJECTED one back.
  ghost predicate Evolves(s: Store, r: Store) {
    && s.Keys <= r.Keys
    && forall i :: i in s ==> SameContent(s[i], r[i]) && (!Active(s[i].status) ==> !Active(r[i].status))
  }

  lemma EvolvesTransitive(a: Store, b: Store, c: Store)
    requires Evolves(a, b) && Evolves(b, c)
    ensures Evolves(a, c)
  {
    forall i | i in a
      ensures SameContent(a[i], c[i])
    {
      assert SameContent(a[i], b[i]) && SameContent(b[i], c[i]);
    }
  }

  lemma SettleEvolves(s: Store, keys: set<Key>, t: Text)
    ensures Evolves(s, SettleKeys(s, keys, t))
    ensures IdsMatch(s) ==> IdsMatch(SettleKeys(s, keys, t))
  {
  }

  lemma EnteredEvolves(s: Store, c: Claim, t: Text)
    requires c.id !in s
    ensures Evolves(s, Entered(s, c, t))
    ensures IdsMatch(s) ==> IdsMatch(Entered(s, c, t))
    ensures Entered(s, c, t).Keys == s.Keys + {c.id}
  {
  }

  // A claim entering leaves every other group exactly as it was.
  lemma EnteredOtherGroups(s: Store, c: Claim, t: Text, key: Key)
    requires c.id !in s && key != GroupKey(c, t)
    ensures SameGroup(s, Entered(s, c, t), key, t)
    ensures forall i :: i in Members(s, key, t) ==> Entered(s, c, t)[i] == s[i]
  {
    var r := Entered(s, c, t);
    forall i | i in s
      ensures GroupKey(s[i], t) == key ==> r[i] == s[i]
      ensures GroupKey(r[i], t) == GroupKey(s[i], t)
    {
    }
  }

  ghost predicate FreshIds(s: Store, batch: seq<Claim>) {
    && (forall c :: c in batch ==> c.id !in s)
    && forall i, j :: 0 <= i < j < |batch| ==> batch[i].id != batch[j].id
  }

  lemma {:induction false} EnteredAllEvolves(s: Store, batch: seq<Claim>, t: Text)
    requires FreshIds(s, batch)
    ensures Evolves(s, EnteredAll(s, batch, t))
    ensures EnteredAll(s, batch, t).Keys == s.Keys + set c | c in batch :: c.id
    ensures IdsMatch(s) ==> IdsMatch(EnteredAll(s, batch, t))
  {
    if batch != [] {
      var rest, last := batch[..|batch| - 1], batch[|batch| - 1];
      assert batch == rest + [last];
      FreshPrefix(s, batch);
      EnteredAllEvolves(s, rest, t);
      EnteredEvolves(EnteredAll(s, rest, t), last, t);
      EvolvesTransitive(s, EnteredAll(s, rest, t), EnteredAll(s, batch, t));
    }
  }

  lemma FreshPrefix(s: Store, batch: seq<Claim>)
    requires FreshIds(s, batch) && batch != []
    ensures FreshIds(s, batch[..|batch| - 1])
    ensures batch[|batch| - 1].id !in s
    ensures forall c :: c in batch[..|batch| - 1] ==> c.id != batch[|batch| - 1].id
  {
    var rest, last := batch[..|batch| - 1], batch[|batch| - 1];
    assert last in batch;
    forall c | c in rest
      ensures c in batch && c.id != last.id
    {
      var i :| 0 <= i < |rest| && rest[i] == c;
      assert batch[i] == c;
    }
  }

  lemma {:induction false} EnteredAllOtherGroups(s: Store, batch: seq<Claim>, t: Text, key: Key)
    requires FreshIds(s, batch) && key !in TouchedKeys(batch, t)
    ensures var r := EnteredAll(s, batch, t);
      Members(r, key, t) == Members(s, key, t) && forall i :: i in Members(s, key, t) ==> r[i] == s[i]
  {
    if batch != [] {
      var rest, last := batch[..|batch| - 1], batch[|batch| - 1];
      assert batch == rest + [last];
      FreshPrefix(s, batch);
      assert last in batch && GroupKey(last, t) in TouchedKeys(batch, t);
      EnteredAllOtherGroups(s, rest, t, key);
      EnteredAllEvolves(s, rest, t);
      EnteredOtherGroups(EnteredAll(s, rest, t), last, t, key);
    }
  }

  // ---------------------------------------------------------------- what every operation keeps

  lemma UntouchedSettled(s: Store, r: Store, t: Text, i: Id)
    requires Reconciled(s, t) && i in r && Counts(r[i], t)
    requires var key := GroupKey(r[i], t);
      Members(r, key, t) == Members(s, key, t) && forall j :: j in Members(s, key, t) ==> r[j] == s[j]
    ensures SettledAt(r, i, t)
  {
    var key := GroupKey(r[i], t);
    assert i in Members(r, key, t);
    SameGroupWanted(s, r, key, t, i);
  }

  lemma IngestReconciles(s: Store, batch: seq<Claim>, t: Text)
    requires IdsMatch(s) && Reconciled(s, t) && FreshIds(s, batch)
    ensures var r := Ingested(s, batch, t); Reconciled(r, t) && IdsMatch(r) && Evolves(s, r)
  {
    var e := EnteredAll(s, batch, t);
    EnteredAllEvolves(s, batch, t);
    forall i | i in e && GroupKey(e[i], t) !in TouchedKeys(batch, t)
      ensures SettledAt(e, i, t)
    {
      if Counts(e[i], t) {
        EnteredAllOtherGroups(s, batch, t, GroupKey(e[i], t));
        UntouchedSettled(s, e, t, i);
      }
    }
    SettleReconciles(e, TouchedKeys(batch, t), t);
    SettleEvolves(e, TouchedKeys(batch, t), t);
    EvolvesTransitive(s, e, Ingested(s, batch, t));
  }

  lemma RetireReconciles(s: Store, r: Store, touched: set<Key>, t: Text)
    requires IdsMatch(s) && Reconciled(s, t) && Retired(s, r, touched, t)
    ensures var u := SettleKeys(r, touched, t); Reconciled(u, t) && IdsMatch(u) && Evolves(s, u)
  {
    forall i | i in s
      ensures GroupKey(r[i], t) == GroupKey(s[i], t)
      ensures GroupKey(s[i], t) !in touched ==> r[i] == s[i]
    {
    }
    forall i | i in r && GroupKey(r[i], t) !in touched
      ensures SettledAt(r, i, t)
    {
      if Counts(r[i], t) {
        UntouchedSettled(s, r, t, i);
      }
    }
    SettleReconciles(r, touched, t);
    SettleEvolves(r, touched, t);
    assert Evolves(s, r);
    EvolvesTransitive(s, r, SettleKeys(r, touched, t));
  }

  // Recording a derivation changes no group.
  lemma DeriveReconciles(s: Store, c: Claim, t: Text)
    requires IdsMatch(s) && Reconciled(s, t) && c.id !in s && c.sourceType == DERIVED
    ensures var r := s[c.id := c]; Reconciled(r, t) && IdsMatch(r) && Evolves(s, r)
  {
    var r := s[c.id := c];
    forall i | i in r && Counts(r[i], t)
      ensures SettledAt(r, i, t)
    {
      assert Members(r, GroupKey(r[i], t), t) == Members(s, GroupKey(r[i], t), t);
      UntouchedSettled(s, r, t, i);
    }
  }

  // Running reconciliation again on any group changes nothing.
  lemma ReconcileIsIdempotent(s: Store, keys: set<Key>, t: Text)
    requires Reconciled(s, t)
    ensures SettleKeys(s, keys, t) == s
  {
    forall i | i in s
      ensures SettleKeys(s, keys, t)[i] == s[i]
    {
      assert SettledAt(s, i, t);
    }
  }

  // ---------------------------------------------------------------- conflict links

  // A disagreeing group has somebody else for each of its members to disagree with.
  lemma SomebodyElse(s: Store, key: Key, t: Text, a: Id)
    requires Disagrees(s, key, t)
    ensures exists b :: b in Members(s, key, t) - {a}
  {
    var x, y :| x in Members(s, key, t) && y in Members(s, key, t)
        && t.canonical(s[x].value) != t.canonical(s[y].value);
    assert x in Members(s, key, t) - {a} || y in Members(s, key, t) - {a};
  }

  ghost function Others(s: Store, a: Id, t: Text): set<Id>
    requires a in s
  {
    Members(s, GroupKey(s[a], t), t) - {a}
  }

  ghost predicate InDispute(s: Store, a: Id, t: Text)
    requires a in s
  {
    Disagrees(s, GroupKey(s[a], t), t)
  }

  lemma NamesOf(names: seq<Id>, others: set<Id>, b: Id)
    requires names == Sorted(others)
    ensures Ascending(names) && (b in names <==> b in others)
  {
  }

  lemma WantedNames(s: Store, a: Id, t: Text, b: Id)
    requires a in s
    ensures var w := Wanted(s, a, t);
      (b in w.1 <==> InDispute(s, a, t) && b in Others(s, a, t)) && (w.0 == CONFLICTED <==> InDispute(s, a, t))
          && Ascending(w.1)
  {
    if InDispute(s, a, t) {
      NamesOf(Sorted(Others(s, a, t)), Others(s, a, t), b);
    }
  }

  lemma OthersMeaning(s: Store, a: Id, t: Text, b: Id)
    requires a in s && Counts(s[a], t)
    ensures b in Others(s, a, t) <==> b in s && Counts(s[b], t) && a != b && GroupKey(s[a], t) == GroupKey(s[b], t)
  {
  }

  // In a reconciled store a counted claim is CONFLICTED exactly when its group
  // disagrees; it then names exactly the other counted claims of the group, in
  // ascending order, and names nobody otherwise.
  lemma ConflictsNamed(s: Store, t: Text, a: Id)
    requires Reconciled(s, t) && a in s && Counts(s[a], t)
    ensures s[a].status == CONFLICTED <==> InDispute(s, a, t)
    ensures s[a].status == CONFLICTED <==> s[a].conflicts != []
    ensures Ascending(s[a].conflicts)
    ensures forall b :: b in s[a].conflicts <==> InDispute(s, a, t) && b in Others(s, a, t)
  {
    assert SettledAt(s, a, t);
    var w := Wanted(s, a, t);
    forall b
      ensures b in w.1 <==> InDispute(s, a, t) && b in Others(s, a, t)
      ensures (w.0 == CONFLICTED <==> InDispute(s, a, t)) && Ascending(w.1)
    {
      WantedNames(s, a, t, b);
    }
    WantedNames(s, a, t, a);
    if InDispute(s, a, t) {
      SomebodyElse(s, GroupKey(s[a], t), t, a);
      var b :| b in Others(s, a, t);
      assert b in w.1;
    } else {
      assert w.1 == [];
    }
  }

  // So the links are symmetric, irreflexive, and hold exactly between counted
  // claims of one disagreeing group.
  lemma ConflictLinks(s: Store, t: Text, a: Id, b: Id)
    requires Reconciled(s, t) && a in s && Counts(s[a], t)
    ensures b in s[a].conflicts <==>
      && b in s && Counts(s[b], t) && a != b
      && GroupKey(s[a], t) == GroupKey(s[b], t) && Disagrees(s, GroupKey(s[a], t), t)
    ensures b in s[a].conflicts ==> a in s[b].conflicts
  {
    ConflictsNamed(s, t, a);
    OthersMeaning(s, a, t, b);
    if b in s[a].conflicts {
      ConflictsNamed(s, t, b);
      OthersMeaning(s, b, t, a);
    }
  }

  // ---------------------------------------------------------------- one live claim per source

  ghost predicate OnePerSource(s: Store, t: Text) {
    forall i, j :: i in s && j in s && i != j && Counts(s[i], t) && Counts(s[j], t)
        && GroupKey(s[i], t) == GroupKey(s[j], t)
      ==> SourceKey(s[i], t) != SourceKey(s[j], t)
  }

  // Nothing the same source said about the same thing is newer than c.
  ghost predicate ArrivesInOrder(s: Store, c: Claim, t: Text) {
    forall i :: i in s && Counts(s[i], t) && GroupKey(s[i], t) == GroupKey(c, t)
        && SourceKey(s[i], t) == SourceKey(c, t)
      ==> s[i].timestamp <= c.timestamp
  }

  // A source stays with one live claim exactly when it reports in time order.
  lemma OnePerSourceIff(s: Store, c: Claim, t: Text)
    requires IdsMatch(s) && OnePerSource(s, t) && c.id !in s
    ensures OnePerSource(Entered(s, c, t), t) <==> (Counts(c, t) ==> ArrivesInOrder(s, c, t))
  {
    var r := Entered(s, c, t);
    forall i | i in s
      ensures Counts(r[i], t) <==> Counts(s[i], t) && !Supersedes(c, s[i], t)
      ensures GroupKey(r[i], t) == GroupKey(s[i], t) && SourceKey(r[i], t) == SourceKey(s[i], t)
    {
      assert s[i].id == i;
    }
    if Counts(c, t) {
      forall i | i in s && Counts(s[i], t) && GroupKey(s[i], t) == GroupKey(c, t)
          && SourceKey(s[i], t) == SourceKey(c, t)
        ensures Counts(r[i], t) <==> s[i].timestamp > c.timestamp
      {
        assert s[i].id == i;
      }
      if OnePerSource(r, t) {
        forall i | i in s && Counts(s[i], t) && GroupKey(s[i], t) == GroupKey(c, t)
            && SourceKey(s[i], t) == SourceKey(c, t)
          ensures s[i].timestamp <= c.timestamp
        {
          assert i in r && c.id in r && i != c.id;
        }
      }
    }
  }

  // Retiring or re-settling claims never gives a source a second live one.
  lemma OnePerSourceKept(s: Store, r: Store, t: Text)
    requires OnePerSource(s, t) && Evolves(s, r)
    requires forall i :: i in r && Counts(r[i], t) ==> i in s
    ensures OnePerSource(r, t)
  {
    forall i | i in s
      ensures GroupKey(r[i], t) == GroupKey(s[i], t) && SourceKey(r[i], t) == SourceKey(s[i], t)
      ensures Counts(r[i], t) ==> Counts(s[i], t)
    {
      assert SameContent(s[i], r[i]);
    }
  }

  // Two claims from different sources state different values.
  ghost predicate SourcesDisagree(s: Store, key: Key, t: Text) {
    exists a, b :: a in Members(s, key, t) && b in Members(s, key, t)
                   && SourceKey(s[a], t) != SourceKey(s[b], t) && t.canonical(s[a].value) != t.canonical(s[b].value)
  }

  ghost predicate SourcesDiffer(s: Store, ids: set<Id>, t: Text)
    requires ids <= s.Keys
  {
    forall x, y :: x in ids && y in ids && x != y ==> SourceKey(s[x], t) != SourceKey(s[y], t)
  }

  lemma GroupSourcesDiffer(s: Store, key: Key, t: Text)
    requires OnePerSource(s, t)
    ensures SourcesDiffer(s, Members(s, key, t), t)
  {
  }

  lemma DisputeIsBetweenSources(s: Store, key: Key, t: Text)
    requires OnePerSource(s, t)
    ensures Disagrees(s, key, t) <==> SourcesDisagree(s, key, t)
  {
    GroupSourcesDiffer(s, key, t);
    var m := Members(s, key, t);
    if Disagrees(s, key, t) {
      var a, b :| a in m && b in m && t.canonical(s[a].value) != t.canonical(s[b].value);
      assert SourceKey(s[a], t) != SourceKey(s[b], t);
    }
  }

  lemma CorroborationCounts(s: Store, key: Key, t: Text)
    requires OnePerSource(s, t)
    ensures Corroborated(s, key, t) <==> |Members(s, key, t)| >= 2
  {
    GroupSourcesDiffer(s, key, t);
    var m := Members(s, key, t);
    TwoElements(m);
    if |m| >= 2 {
      var a, b :| a in m && b in m && a != b;
      assert SourceKey(s[a], t) != SourceKey(s[b], t);
    }
  }

  // Then a conflict is between two sources, and multi-source support means at
  // least two claims, all of which agree.
  lemma StatusMeaning(s: Store, t: Text, a: Id)
    requires Reconciled(s, t) && OnePerSource(s, t) && a in s && Counts(s[a], t)
    ensures s[a].status == CONFLICTED <==> SourcesDisagree(s, GroupKey(s[a], t), t)
    ensures s[a].status == MULTI_SOURCE_SUPPORTED <==>
      |Members(s, GroupKey(s[a], t), t)| >= 2 && !Disagrees(s, GroupKey(s[a], t), t)
  {
    assert SettledAt(s, a, t);
    DisputeIsBetweenSources(s, GroupKey(s[a], t), t);
    CorroborationCounts(s, GroupKey(s[a], t), t);
  }

  // ---------------------------------------------------------------- simulated lineage

  function Flagged(c: Claim): bool {
    c.simulatedLineage || SimulatedType(c.sourceType)
  }

  function Inputs(s: Store): Edges {
    map i | i in s :: Elements(s[i].derivedFrom)
  }

  // A claim is flagged exactly when it is simulated itself or an input is flagged.
  ghost predicate FlagOk(s: Store, i: Id)
    requires i in s
  {
    Flagged(s[i]) <==> SimulatedType(s[i].sourceType) || exists d :: d in Deps(Inputs(s), i) && d in s && Flagged(s[d])
  }

  // Every derivation points at stored claims, without cycles, and flags are
  // inherited from the inputs.
  ghost predicate LineageOk(s: Store) {
    && (forall i :: i in s ==> Deps(Inputs(s), i) <= s.Keys)
    && Acyclic(Inputs(s))
    && forall i :: i in s ==> FlagOk(s, i)
  }

  // A claim as a producer hands it over: not derived, nothing inherited.
  predicate Observed(c: Claim) {
    c.derivedFrom == [] && (c.simulatedLineage ==> SimulatedType(c.sourceType))
  }

  predicate Derived(c: Claim, s: Store) {
    && c.sourceType == DERIVED
    && (forall d :: d in c.derivedFrom ==> d in s)
    && (c.simulatedLineage <==> exists d :: d in c.derivedFrom && d in s && Flagged(s[d]))
  }

  // Some chain of derived-from links leads from i to a claim of a simulated type.
  ghost predicate ReachesSimulated(s: Store, i: Id) {
    exists m :: ReachesOrIs(Inputs(s), i, m) && m in s && SimulatedType(s[m].sourceType)
  }

  lemma {:induction false} FlagFollowsChain(s: Store, i: Id, m: Id, k: nat)
    requires LineageOk(s) && i in s && m in s && ReachesIn(Inputs(s), i, m, k) && SimulatedType(s[m].sourceType)
    ensures Flagged(s[i])
    decreases k
  {
    if k > 0 {
      var d :| d in Deps(Inputs(s), i) && ReachesIn(Inputs(s), d, m, k - 1);
      FlagFollowsChain(s, d, m, k - 1);
      assert FlagOk(s, i);
    }
  }

  ghost function Below(s: Store, i: Id): set<Id> {
    set m | m in s && Reaches(Inputs(s), i, m)
  }

  lemma BelowShrinks(s: Store, i: Id, d: Id)
    requires LineageOk(s) && i in s && d in Deps(Inputs(s), i)
    ensures |Below(s, d)| < |Below(s, i)|
  {
    var e := Inputs(s);
    EdgeReaches(e, i, d);
    forall m | m in Below(s, d)
      ensures m in Below(s, i)
    {
      ReachesTransitive(e, i, d, m);
    }
    assert d in Below(s, i) && d !in Below(s, d);
    assert Below(s, d) <= Below(s, i) - {d};
    SubsetCount(Below(s, d), Below(s, i) - {d});
  }

  lemma {:induction false} FlagHasOrigin(s: Store, i: Id)
    requires LineageOk(s) && i in s && Flagged(s[i])
    ensures ReachesSimulated(s, i)
    decreases |Below(s, i)|
  {
    assert FlagOk(s, i);
    if !SimulatedType(s[i].sourceType) {
      var d :| d in Deps(Inputs(s), i) && d in s && Flagged(s[d]);
      BelowShrinks(s, i, d);
      FlagHasOrigin(s, d);
      var m :| ReachesOrIs(Inputs(s), d, m) && m in s && SimulatedType(s[m].sourceType);
      EdgeThenReaches(Inputs(s), i, d, m);
    }
  }

  // A claim carries the badge exactly when it comes from simulated evidence.
  lemma FlaggedIffSimulatedOrigin(s: Store, i: Id)
    requires LineageOk(s) && i in s
    ensures Flagged(s[i]) <==> ReachesSimulated(s, i)
  {
    if Flagged(s[i]) {
      FlagHasOrigin(s, i);
    }
    if ReachesSimulated(s, i) {
      var m :| ReachesOrIs(Inputs(s), i, m) && m in s && SimulatedType(s[m].sourceType);
      if m == i {
        assert ReachesIn(Inputs(s), i, m, 0);
        FlagFollowsChain(s, i, m, 0);
      } else {
        var k: nat :| k > 0 && ReachesIn(Inputs(s), i, m, k);
        FlagFollowsChain(s, i, m, k);
      }
    }
  }

  // Status changes leave the lineage as it was.
  lemma LineageUntouched(s: Store, r: Store)
    requires LineageOk(s) && r.Keys == s.Keys && Evolves(s, r)
    ensures LineageOk(r) && forall i :: i in s ==> Flagged(r[i]) == Flagged(s[i])
  {
    forall i | i in s
      ensures Inputs(r)[i] == Inputs(s)[i] && Flagged(r[i]) == Flagged(s[i]) && r[i].sourceType == s[i].sourceType
    {
      assert SameContent(s[i], r[i]);
    }
    assert Inputs(r) == Inputs(s);
    forall i | i in r
      ensures FlagOk(r, i)
    {
      assert FlagOk(s, i);
    }
  }

  // A new node that nothing points at closes no cycle.
  lemma NewNodeAcyclic(e: Edges, n: Id, inputs: set<Id>)
    requires Acyclic(e) && n !in e && inputs <= e.Keys && forall i :: i in e ==> e[i] <= e.Keys
    ensures Acyclic(e[n := inputs])
  {
    var f := e[n := inputs];
    forall x
      ensures !Reaches(f, x, x)
    {
      if Reaches(f, x, x) {
        var d := FirstEdge(f, x, x);
        assert x in f && d in e;
        var k: nat :| ReachesIn(f, d, x, k);
        ClosedSetKeepsReach(f, e.Keys, d, x, k);
        StaysInside(e, f, d, x, k);
        assert d in Deps(e, x);
        EdgeThenReaches(e, x, d, x);
      }
    }
  }

  lemma {:induction false} StaysInside(e: Edges, f: Edges, a: Id, b: Id, k: nat)
    requires e.Keys <= f.Keys && a in e && forall i :: i in e ==> e[i] <= e.Keys && f[i] == e[i]
    requires ReachesIn(f, a, b, k)
    ensures ReachesOrIs(e, a, b)
    decreases k
  {
    if k > 0 {
      var c :| c in Deps(f, a) && ReachesIn(f, c, b, k - 1);
      StaysInside(e, f, c, b, k - 1);
      EdgeThenReaches(e, a, c, b);
    }
  }

  // A claim that is observed, or derived from stored ones, keeps the lineage.
  lemma AddKeepsLineage(s: Store, c: Claim)
    requires LineageOk(s) && c.id !in s && (Observed(c) || Derived(c, s))
    ensures LineageOk(s[c.id := c])
  {
    var r := s[c.id := c];
    var e := Inputs(s);
    assert Inputs(r) == e[c.id := Elements(c.derivedFrom)];
    forall i | i in e
      ensures e[i] <= e.Keys
    {
      assert Deps(e, i) <= s.Keys;
    }
    NewNodeAcyclic(e, c.id, Elements(c.derivedFrom));
    forall i | i in r
      ensures FlagOk(r, i)
    {
      if i == c.id {
        NewFlagOk(s, c);
      } else {
        OldFlagOk(s, c, i);
      }
    }
  }

  lemma NewFlagOk(s: Store, c: Claim)
    requires LineageOk(s) && c.id !in s && (Observed(c) || Derived(c, s))
    ensures FlagOk(s[c.id := c], c.id)
  {
    var r := s[c.id := c];
    assert Deps(Inputs(r), c.id) == Elements(c.derivedFrom);
    forall d | d in c.derivedFrom
      ensures d in s && r[d] == s[d]
    {
      assert !Observed(c);
    }
    if Derived(c, s) && c.simulatedLineage {
      var d :| d in c.derivedFrom && d in s && Flagged(s[d]);
      assert d in Deps(Inputs(r), c.id) && Flagged(r[d]);
    }
  }

  lemma OldFlagOk(s: Store, c: Claim, i: Id)
    requires LineageOk(s) && c.id !in s && i in s
    ensures FlagOk(s[c.id := c], i)
  {
    var r := s[c.id := c];
    assert FlagOk(s, i);
    assert Deps(Inputs(r), i) == Deps(Inputs(s), i);
    forall d | d in Deps(Inputs(s), i)
      ensures d in s && r[d] == s[d]
    {
    }
  }
}
