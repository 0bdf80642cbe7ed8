// Incremental constraint updates: which derived artifacts go stale, and which
// agents run again.
module Revision {
  import opened Keys
  import opened Mission
  import opened Models
  import opened Ordering

  type Operator = string

  datatype HardConstraint = HardConstraint(key: string, operator: Operator, value: Json, description: string,
      locked: bool)

  datatype SoftPreference = SoftPreference(key: string, weight: real)

  datatype Spec = Spec(hardConstraints: seq<HardConstraint>, softPreferences: seq<SoftPreference>,
      lockedComponents: seq<string>)

  datatype ConstraintUpdate = ConstraintUpdate(key: string, operator: Operator, value: Json)

  // The preference changes are a dictionary: distinct keys, in order.
  datatype ConstraintChange = ConstraintChange(
    updates: seq<ConstraintUpdate>,
    locks: seq<string>,
    unlocks: seq<string>,
    preferenceChanges: seq<(string, real)>)

  // The text library, and when two JSON values count as equal.
  datatype World = World(fold: Fold, same: (Json, Json) -> bool)

  ghost predicate Equivalence(same: (Json, Json) -> bool) {
    && (forall a :: same(a, a))
    && (forall a, b :: same(a, b) ==> same(b, a))
    && (forall a, b, c :: same(a, b) && same(b, c) ==> same(a, c))
  }

  function Norm(w: World, key: string): string {
    NormalizeKey(key, w.fold)
  }

  function NormSet(w: World, keys: seq<string>): set<string> {
    set k | k in keys :: Norm(w, k)
  }

  // ---------------------------------------------------------------- constraints by slot

  datatype Slot = Slot(key: string, operator: Operator)

  function SlotOf(w: World, c: HardConstraint): Slot {
    Slot(Norm(w, c.key), c.operator)
  }

  // Dictionary assignment: overwrite in place, or append.
  function Put(w: World, constraints: seq<HardConstraint>, c: HardConstraint): (r: seq<HardConstraint>)
    ensures forall x :: x in r ==> x in constraints || x == c
  {
    if constraints == [] then [c]
    else if SlotOf(w, constraints[0]) == SlotOf(w, c) then [c] + constraints[1..]
    else [constraints[0]] + Put(w, constraints[1..], c)
  }

  // Dictionary lookup.
  function Get(w: World, constraints: seq<HardConstraint>, slot: Slot): Option<HardConstraint> {
    if constraints == [] then None
    else if SlotOf(w, constraints[0]) == slot then Some(constraints[0])
    else Get(w, constraints[1..], slot)
  }

  lemma {:induction false} GetPut(w: World, constraints: seq<HardConstraint>, c: HardConstraint, slot: Slot)
    ensures Get(w, Put(w, constraints, c), slot) == if slot == SlotOf(w, c) then Some(c) else Get(w, constraints, slot)
  {
    if constraints != [] && SlotOf(w, constraints[0]) != SlotOf(w, c) {
      GetPut(w, constraints[1..], c, slot);
    }
  }

  lemma {:induction false} GetFinds(w: World, constraints: seq<HardConstraint>, slot: Slot)
    ensures Get(w, constraints, slot).Some? ==>
      Get(w, constraints, slot).value in constraints && SlotOf(w, Get(w, constraints, slot).value) == slot
    ensures Get(w, constraints, slot).None? ==> forall c :: c in constraints ==> SlotOf(w, c) != slot
  {
    if constraints != [] {
      GetFinds(w, constraints[1..], slot);
    }
  }

  // The last stated constraint of each slot, as the dictionary keeps it.
  function Collapsed(w: World, constraints: seq<HardConstraint>): seq<HardConstraint> {
    if constraints == [] then [] else Put(w, Collapsed(w, constraints[..|constraints| - 1]),
        constraints[|constraints| - 1])
  }

  function ValueAt(w: World, constraints: seq<HardConstraint>, slot: Slot): Option<Json> {
    match Get(w, constraints, slot)
    case Some(c) => Some(c.value)
    case None => None
  }

  predicate SameValue(w: World, a: Option<Json>, b: Option<Json>) {
    (a.None? && b.None?) || (a.Some? && b.Some? && w.same(a.value, b.value))
  }

  // ---------------------------------------------------------------- updating the spec

  // The constraint an update leaves in its slot.
  function Restated(w: World, constraints: seq<HardConstraint>, u: ConstraintUpdate): HardConstraint {
    match Get(w, constraints, Slot(Norm(w, u.key), u.operator))
    case Some(c) => HardConstraint(c.key, u.operator, u.value, c.description, true)
    case None => HardConstraint(u.key, u.operator, u.value, "", true)
  }

  predicate Alters(w: World, constraints: seq<HardConstraint>, u: ConstraintUpdate) {
    !SameValue(w, ValueAt(w, constraints, Slot(Norm(w, u.key), u.operator)), Some(u.value))
  }

  lemma RestatedSlot(w: World, constraints: seq<HardConstraint>, u: ConstraintUpdate)
    ensures SlotOf(w, Restated(w, constraints, u)) == Slot(Norm(w, u.key), u.operator)
  {
    GetFinds(w, constraints, Slot(Norm(w, u.key), u.operator));
  }

  function Updated(w: World, constraints: seq<HardConstraint>, updates: seq<ConstraintUpdate>): seq<HardConstraint> {
    if updates == [] then constraints else
      var before := Updated(w, constraints, updates[..|updates| - 1]);
      var u := updates[|updates| - 1];
      if Alters(w, before, u) then Put(w, before, Restated(w, before, u)) else before
  }

  function ChangedBy(w: World, constraints: seq<HardConstraint>, updates: seq<ConstraintUpdate>): seq<string> {
    if updates == [] then [] else
      var before := Updated(w, constraints, updates[..|updates| - 1]);
      var u := updates[|updates| - 1];
      ChangedBy(w, constraints, updates[..|updates| - 1]) + if Alters(w, before, u) then [u.key] else []
  }

  // A slot nobody reports as changed still has the value it had.
  lemma {:induction false} UnreportedUnchanged(w: World, constraints: seq<HardConstraint>,
      updates: seq<ConstraintUpdate>, slot: Slot)
    requires Equivalence(w.same)
    requires slot.key !in NormSet(w, ChangedBy(w, constraints, updates))
    ensures ValueAt(w, Updated(w, constraints, updates), slot) == ValueAt(w, constraints, slot)
  {
    if updates != [] {
      var rest, u := updates[..|updates| - 1], updates[|updates| - 1];
      var before := Updated(w, constraints, rest);
      var keys := ChangedBy(w, constraints, updates);
      assert forall k :: k in ChangedBy(w, constraints, rest) ==> k in keys;
      UnreportedUnchanged(w, constraints, rest, slot);
      if Alters(w, before, u) {
        assert u.key in keys && Norm(w, u.key) != slot.key;
        RestatedSlot(w, before, u);
        GetPut(w, before, Restated(w, before, u), slot);
      }
    }
  }

  // Every reported key is, up to normalization, the key of a constraint.
  lemma {:induction false} ReportedKnown(w: World, constraints: seq<HardConstraint>, updates: seq<ConstraintUpdate>,
      k: string)
    requires k in ChangedBy(w, constraints, updates)
    ensures exists c :: c in Updated(w, constraints, updates) && Norm(w, c.key) == Norm(w, k)
  {
    var rest, u := updates[..|updates| - 1], updates[|updates| - 1];
    var before := Updated(w, constraints, rest);
    if k in ChangedBy(w, constraints, rest) {
      ReportedKnown(w, constraints, rest, k);
      var c :| c in before && Norm(w, c.key) == Norm(w, k);
      if Alters(w, before, u) {
        PutKeepsKeys(w, before, Restated(w, before, u), c);
      }
    } else {
      RestatedSlot(w, before, u);
      PutHolds(w, before, Restated(w, before, u));
    }
  }

  lemma {:induction false} PutHolds(w: World, constraints: seq<HardConstraint>, c: HardConstraint)
    ensures c in Put(w, constraints, c)
  {
    if constraints != [] && SlotOf(w, constraints[0]) != SlotOf(w, c) {
      PutHolds(w, constraints[1..], c);
    }
  }

  lemma {:induction false} PutKeepsKeys(w: World, constraints: seq<HardConstraint>, c: HardConstraint,
      x: HardConstraint)
    requires x in constraints
    ensures exists y :: y in Put(w, constraints, c) && Norm(w, y.key) == Norm(w, x.key)
  {
    if SlotOf(w, constraints[0]) == SlotOf(w, c) {
      if x == constraints[0] {
        assert c in Put(w, constraints, c);
      } else {
        assert x in constraints[1..];
        assert x in Put(w, constraints, c);
      }
    } else if x == constraints[0] {
      assert x in Put(w, constraints, c);
    } else {
      assert x in constraints[1..];
      PutKeepsKeys(w, constraints[1..], c, x);
      var y :| y in Put(w, constraints[1..], c) && Norm(w, y.key) == Norm(w, x.key);
      assert y in Put(w, constraints, c);
    }
  }

  // ---------------------------------------------------------------- preferences

  // The dictionary from normalized key to index: the last one wins.
  function LastIndex(w: World, preferences: seq<SoftPreference>, key: string): (r: Option<nat>)
    ensures r.Some? ==> r.value < |preferences| && Norm(w, preferences[r.value].key) == Norm(w, key)
  {
    if preferences == [] then None
    else if Norm(w, preferences[|preferences| - 1].key) == Norm(w, key) then Some(|preferences| - 1)
    else LastIndex(w, preferences[..|preferences| - 1], key)
  }

  function Reweighted(w: World, original: seq<SoftPreference>, changes: seq<(string, real)>): (r: seq<SoftPreference>)
    ensures |r| >= |original| && forall i :: 0 <= i < |original| ==> r[i].key == original[i].key
  {
    if changes == [] then original else
      var before := Reweighted(w, original, changes[..|changes| - 1]);
      var (key, weight) := changes[|changes| - 1];
      match LastIndex(w, original, key)
      case None => before + [SoftPreference(key, weight)]
      case Some(i) => if before[i].weight != weight then before[i := before[i].(weight := weight)] else before
  }

  function ReweightedKeys(w: World, original: seq<SoftPreference>, changes: seq<(string, real)>): seq<string> {
    if changes == [] then [] else
      var before := Reweighted(w, original, changes[..|changes| - 1]);
      var (key, weight) := changes[|changes| - 1];
      ReweightedKeys(w, original, changes[..|changes| - 1]) +
      match LastIndex(w, original, key)
      case None => [key]
      case Some(i) => if before[i].weight != weight then [key] else []
  }

  // A preference nobody reports has the weight it had, and every new one is reported.
  lemma {:induction false} UnreportedPreferences(w: World, original: seq<SoftPreference>, changes: seq<(string, real)>,
      i: nat)
    requires i < |Reweighted(w, original, changes)|
    requires Norm(w, Reweighted(w, original, changes)[i].key) !in NormSet(w, ReweightedKeys(w, original, changes))
    ensures i < |original| && Reweighted(w, original, changes)[i] == original[i]
  {
    if changes != [] {
      var rest := changes[..|changes| - 1];
      var (key, weight) := changes[|changes| - 1];
      var keys := ReweightedKeys(w, original, changes);
      assert forall k :: k in ReweightedKeys(w, original, rest) ==> k in keys;
      assert LastIndex(w, original, key).None? ==> key in keys;
      if i < |Reweighted(w, original, rest)| {
        UnreportedPreferences(w, original, rest, i);
      }
    }
  }

  predicate HasPreference(w: World, preferences: seq<SoftPreference>, n: string) {
    exists p :: p in preferences && Norm(w, p.key) == n
  }

  lemma HasPreferenceAt(w: World, preferences: seq<SoftPreference>, i: nat)
    requires i < |preferences|
    ensures HasPreference(w, preferences, Norm(w, preferences[i].key))
  {
    assert preferences[i] in preferences;
  }

  lemma PreferencesStay(w: World, before: seq<SoftPreference>, after: seq<SoftPreference>, n: string)
    requires HasPreference(w, before, n) && |after| >= |before| && forall i :: 0 <= i < |before| ==>
        after[i].key == before[i].key
    ensures HasPreference(w, after, n)
  {
    var p :| p in before && Norm(w, p.key) == n;
    var i :| 0 <= i < |before| && before[i] == p;
    HasPreferenceAt(w, after, i);
  }

  lemma {:induction false} ReportedPreferenceKnown(w: World, original: seq<SoftPreference>,
      changes: seq<(string, real)>, k: string)
    requires k in ReweightedKeys(w, original, changes)
    ensures HasPreference(w, Reweighted(w, original, changes), Norm(w, k))
  {
    var rest := changes[..|changes| - 1];
    var (key, weight) := changes[|changes| - 1];
    var before, after := Reweighted(w, original, rest), Reweighted(w, original, changes);
    if k in ReweightedKeys(w, original, rest) {
      ReportedPreferenceKnown(w, original, rest, k);
      PreferencesStay(w, before, after, Norm(w, k));
    } else {
      var index := LastIndex(w, original, key);
      HasPreferenceAt(w, after, if index.Some? then index.value else |before|);
    }
  }

  // ---------------------------------------------------------------- locks

  function Unlocked(w: World, components: seq<string>, unlocks: seq<string>): seq<string> {
    Filter(components, (k: string) => Norm(w, k) !in NormSet(w, unlocks))
  }

  function LockedAfter(w: World, components: seq<string>, locks: seq<string>): seq<string> {
    if locks == [] then components else
      var before := LockedAfter(w, components, locks[..|locks| - 1]);
      var key := locks[|locks| - 1];
      if Norm(w, key) != "" && Norm(w, key) !in NormSet(w, before) then before + [key] else before
  }

  lemma {:induction false} LockedNames(w: World, components: seq<string>, locks: seq<string>, n: string)
    ensures n in NormSet(w, LockedAfter(w, components, locks)) <==>
      n in NormSet(w, components) || (n != "" && n in NormSet(w, locks))
  {
    if locks != [] {
      var rest, key := locks[..|locks| - 1], locks[|locks| - 1];
      LockedNames(w, components, rest, n);
      assert locks == rest + [key];
      NormSetSnoc(w, rest, key);
      NormSetSnoc(w, LockedAfter(w, components, rest), key);
    }
  }

  lemma NormSetSnoc(w: World, keys: seq<string>, key: string)
    ensures NormSet(w, keys + [key]) == NormSet(w, keys) + {Norm(w, key)}
  {
  }

  // A component is locked afterwards exactly when it is locked now or was
  // locked before and not unlocked.
  lemma LockedMeaning(w: World, spec: Spec, change: ConstraintChange, n: string)
    ensures n in NormSet(w, LockedAfter(w, Unlocked(w, spec.lockedComponents, change.unlocks), change.locks)) <==>
      (n in NormSet(w, spec.lockedComponents) && n !in NormSet(w, change.unlocks))
          || (n != "" && n in NormSet(w, change.locks))
  {
    var kept := Unlocked(w, spec.lockedComponents, change.unlocks);
    LockedNames(w, kept, change.locks, n);
    if n in NormSet(w, spec.lockedComponents) && n !in NormSet(w, change.unlocks) {
      var k :| k in spec.lockedComponents && Norm(w, k) == n;
      assert k in kept;
    }
  }

  // ---------------------------------------------------------------- apply_change_to_spec

  function ChangedSpec(w: World, spec: Spec, change: ConstraintChange): Spec {
    Spec(Updated(w, Collapsed(w, spec.hardConstraints), change.updates),
         Reweighted(w, spec.softPreferences, change.preferenceChanges),
         LockedAfter(w, Unlocked(w, spec.lockedComponents, change.unlocks), change.locks))
  }

  function ChangedKeys(w: World, spec: Spec, change: ConstraintChange): seq<string> {
    ChangedBy(w, Collapsed(w, spec.hardConstraints), change.updates)
        + ReweightedKeys(w, spec.softPreferences, change.preferenceChanges)
  }

  method ApplyChangeToSpec(w: World, spec: Spec, change: ConstraintChange) returns (r: Spec, changed: seq<string>)
    ensures r == ChangedSpec(w, spec, change) && changed == ChangedKeys(w, spec, change)
  {
    var constraints: seq<HardConstraint> := [];
    for k := 0 to |spec.hardConstraints|
      invariant constraints == Collapsed(w, spec.hardConstraints[..k])
    {
      assert spec.hardConstraints[..k + 1][..k] == spec.hardConstraints[..k];
      constraints := Put(w, constraints, spec.hardConstraints[k]);
    }
    assert spec.hardConstraints[..|spec.hardConstraints|] == spec.hardConstraints;
    changed := [];
    for k := 0 to |change.updates|
      invariant constraints == Updated(w, Collapsed(w, spec.hardConstraints), change.updates[..k])
      invariant changed == ChangedBy(w, Collapsed(w, spec.hardConstraints), change.updates[..k])
    {
      var u := change.updates[k];
      assert change.updates[..k + 1][..k] == change.updates[..k];
      var current := Get(w, constraints, Slot(Norm(w, u.key), u.operator));
      if current.None? || !w.same(current.value.value, u.value) {
        constraints := Put(w, constraints, Restated(w, constraints, u));
        changed := changed + [u.key];
      }
    }
    assert change.updates[..|change.updates|] == change.updates;
    var preferences, reweighted := Reweigh(w, spec.softPreferences, change.preferenceChanges);
    var locked := Lock(w, Unlocked(w, spec.lockedComponents, change.unlocks), change.locks);
    r := Spec(constraints, preferences, locked);
    changed := changed + reweighted;
  }

  method Reweigh(w: World, original: seq<SoftPreference>, changes: seq<(string, real)>)
      returns (preferences: seq<SoftPreference>, keys: seq<string>)
    ensures preferences == Reweighted(w, original, changes) && keys == ReweightedKeys(w, original, changes)
  {
    preferences, keys := original, [];
    for k := 0 to |changes|
      invariant preferences == Reweighted(w, original, changes[..k])
          && keys == ReweightedKeys(w, original, changes[..k])
    {
      var (key, weight) := changes[k];
      assert changes[..k + 1][..k] == changes[..k];
      var index := LastIndex(w, original, key);
      if index.None? {
        preferences := preferences + [SoftPreference(key, weight)];
        keys := keys + [key];
      } else if preferences[index.value].weight != weight {
        preferences := preferences[index.value := preferences[index.value].(weight := weight)];
        keys := keys + [key];
      }
    }
    assert changes[..|changes|] == changes;
  }

  method Lock(w: World, components: seq<string>, locks: seq<string>) returns (r: seq<string>)
    ensures r == LockedAfter(w, components, locks)
  {
    r := components;
    for k := 0 to |locks|
      invariant r == LockedAfter(w, components, locks[..k])
    {
      assert locks[..k + 1][..k] == locks[..k];
      if Norm(w, locks[k]) != "" && Norm(w, locks[k]) !in NormSet(w, r) {
        r := r + [locks[k]];
      }
    }
    assert locks[..|locks|] == locks;
  }

  function SpecKeys(spec: Spec): seq<string> {
    seq(|spec.hardConstraints|, k requires 0 <= k < |spec.hardConstraints| => spec.hardConstraints[k].key)
    + seq(|spec.softPreferences|, k requires 0 <= k < |spec.softPreferences| => spec.softPreferences[k].key)
  }

  lemma ConstraintKeyListed(w: World, spec: Spec, c: HardConstraint)
    requires c in spec.hardConstraints
    ensures Norm(w, c.key) in NormSet(w, SpecKeys(spec))
  {
    var i :| 0 <= i < |spec.hardConstraints| && spec.hardConstraints[i] == c;
    assert SpecKeys(spec)[i] == c.key;
    assert c.key in SpecKeys(spec);
  }

  lemma PreferenceKeyListed(w: World, spec: Spec, p: SoftPreference)
    requires p in spec.softPreferences
    ensures Norm(w, p.key) in NormSet(w, SpecKeys(spec))
  {
    var i :| 0 <= i < |spec.softPreferences| && spec.softPreferences[i] == p;
    assert SpecKeys(spec)[|spec.hardConstraints| + i] == p.key;
    assert p.key in SpecKeys(spec);
  }

  // Every changed key is, up to normalization, a key of the new spec.
  lemma ChangedKeysKnown(w: World, spec: Spec, change: ConstraintChange, k: string)
    requires k in ChangedKeys(w, spec, change)
    ensures Norm(w, k) in NormSet(w, SpecKeys(ChangedSpec(w, spec, change)))
  {
    var r := ChangedSpec(w, spec, change);
    if k in ChangedBy(w, Collapsed(w, spec.hardConstraints), change.updates) {
      ReportedKnown(w, Collapsed(w, spec.hardConstraints), change.updates, k);
      var c :| c in r.hardConstraints && Norm(w, c.key) == Norm(w, k);
      ConstraintKeyListed(w, r, c);
    } else {
      ReportedPreferenceKnown(w, spec.softPreferences, change.preferenceChanges, k);
      var p :| p in r.softPreferences && Norm(w, p.key) == Norm(w, k);
      PreferenceKeyListed(w, r, p);
    }
  }

  // And whatever is not reported kept its value or weight.
  lemma UnchangedUnlessReported(w: World, spec: Spec, change: ConstraintChange, slot: Slot, i: nat)
    requires Equivalence(w.same)
    ensures slot.key !in NormSet(w, ChangedKeys(w, spec, change)) ==>
      ValueAt(w, ChangedSpec(w, spec, change).hardConstraints, slot)
          == ValueAt(w, Collapsed(w, spec.hardConstraints), slot)
    ensures var prefs := ChangedSpec(w, spec, change).softPreferences;
      i < |prefs| && Norm(w, prefs[i].key) !in NormSet(w, ChangedKeys(w, spec, change)) ==>
        i < |spec.softPreferences| && prefs[i] == spec.softPreferences[i]
  {
    var a, b := ChangedBy(w, Collapsed(w, spec.hardConstraints), change.updates),
        ReweightedKeys(w, spec.softPreferences, change.preferenceChanges);
    assert NormSet(w, a) <= NormSet(w, a + b) && NormSet(w, b) <= NormSet(w, a + b);
    if slot.key !in NormSet(w, a) {
      UnreportedUnchanged(w, Collapsed(w, spec.hardConstraints), change.updates, slot);
    }
    var prefs := ChangedSpec(w, spec, change).softPreferences;
    if i < |prefs| && Norm(w, prefs[i].key) !in NormSet(w, b) {
      UnreportedPreferences(w, spec.softPreferences, change.preferenceChanges, i);
    }
  }

  // ---------------------------------------------------------------- the dependency graph

  datatype Strategy = Strategy(id: Id, requiredInformation: seq<string>, stale: bool)

  datatype AgentArtifact = AgentArtifact(id: Id, name: string, owns: string, requiredInputs: seq<string>,
      state: AgentState)

  datatype Component = Component(name: string, locked: bool)

  datatype Plan = Plan(id: Id, constraintKeys: seq<string>, components: seq<Component>, stale: bool)

  datatype DependencyGraph = DependencyGraph(
    strategies: map<Id, seq<string>>,
    agents: map<Id, seq<string>>,
    plans: map<Id, seq<string>>,
    owners: map<string, seq<Id>>)

  predicate MatchesAny(w: World, key: string, texts: seq<string>) {
    exists text :: text in texts && KeyMatches(key, text, w.fold)
  }

  function DependsOn(w: World, keys: seq<string>, texts: seq<string>): seq<string> {
    Filter(keys, (key: string) => MatchesAny(w, key, texts))
  }

  function AgentTexts(a: AgentArtifact): seq<string> {
    a.requiredInputs + [a.owns]
  }

  function HardKeys(spec: Spec): seq<string> {
    seq(|spec.hardConstraints|, k requires 0 <= k < |spec.hardConstraints| => spec.hardConstraints[k].key)
  }

  // What a plan option was evaluated against; unknown means every hard constraint.
  function Declared(spec: Spec, plan: Plan): seq<string> {
    if plan.constraintKeys != [] then plan.constraintKeys else HardKeys(spec)
  }

  function ComponentKeys(w: World, components: seq<Component>): (r: seq<string>)
    ensures forall k :: k in r <==> exists c :: c in components && k == Norm(w, c.name) != ""
  {
    if components == [] then [] else
      var rest := ComponentKeys(w, components[..|components| - 1]);
      var c := components[|components| - 1];
      assert components == components[..|components| - 1] + [c];
      if Norm(w, c.name) != "" then rest + [Norm(w, c.name)] else rest
  }

  function PlanKeys(w: World, spec: Spec, plan: Plan): seq<string> {
    Declared(spec, plan) + ComponentKeys(w, plan.components)
  }

  function NonBlank(w: World, keys: seq<string>): set<string> {
    set k | k in keys && Norm(w, k) != "" :: Norm(w, k)
  }

  // The components anybody can own: locked ones and those of the plans.
  function KnownComponents(w: World, locked: seq<string>, plans: seq<Plan>): set<string> {
    NonBlank(w, locked) + set p, k | p in plans && k in ComponentKeys(w, p.components) :: k
  }

  predicate Owns(w: World, a: AgentArtifact, component: string) {
    KeyMatches(component, a.owns, w.fold) || KeyMatches(component, a.name, w.fold)
  }

  // One of the dependencies is, up to normalization, a changed key.
  predicate Hit(w: World, dependencies: seq<string>, changed: seq<string>) {
    exists d :: d in dependencies && Norm(w, d) in NormSet(w, changed)
  }

  // ---------------------------------------------------------------- what the graph lookup means

  // Some changed key occurs in one of the texts.
  predicate Touches(w: World, changed: seq<string>, texts: seq<string>) {
    exists k :: k in changed && MatchesAny(w, k, texts)
  }

  lemma SameMatches(w: World, a: string, b: string, texts: seq<string>)
    requires Norm(w, a) == Norm(w, b)
    ensures MatchesAny(w, a, texts) == MatchesAny(w, b, texts)
  {
    forall text | text in texts
      ensures KeyMatches(a, text, w.fold) == KeyMatches(b, text, w.fold)
    {
      MatchesByNormalForm(a, b, text, w.fold);
    }
  }

  lemma NormIn(w: World, keys: seq<string>, n: string)
    ensures n in NormSet(w, keys) <==> exists k :: k in keys && Norm(w, k) == n
  {
  }

  // Looking dependencies up in the graph agrees with the direct definition,
  // because every changed key is a key of the new spec.
  lemma LookupIsDirect(w: World, spec: Spec, change: ConstraintChange, texts: seq<string>)
    ensures Hit(w, DependsOn(w, SpecKeys(ChangedSpec(w, spec, change)), texts), ChangedKeys(w, spec, change))
            <==> Touches(w, ChangedKeys(w, spec, change), texts)
  {
    var keys, changed := SpecKeys(ChangedSpec(w, spec, change)), ChangedKeys(w, spec, change);
    var dependencies := DependsOn(w, keys, texts);
    if Hit(w, dependencies, changed) {
      var d :| d in dependencies && Norm(w, d) in NormSet(w, changed);
      NormIn(w, changed, Norm(w, d));
      var k :| k in changed && Norm(w, k) == Norm(w, d);
      SameMatches(w, k, d, texts);
    }
    if Touches(w, changed, texts) {
      var k :| k in changed && MatchesAny(w, k, texts);
      ChangedKeysKnown(w, spec, change, k);
      NormIn(w, keys, Norm(w, k));
      var d :| d in keys && Norm(w, d) == Norm(w, k);
      SameMatches(w, k, d, texts);
      assert d in dependencies && Norm(w, k) in NormSet(w, changed);
    }
  }

  // A plan depends on the constraints it was evaluated against and on its
  // own components.
  lemma PlanLookupIsDirect(w: World, spec: Spec, plan: Plan, changed: seq<string>)
    requires FoldOk(w.fold)
    ensures Hit(w, PlanKeys(w, spec, plan), changed) <==>
      exists n :: n in NormSet(w, changed) && (n in NormSet(w, Declared(spec, plan))
          || n in ComponentKeys(w, plan.components))
  {
    forall k | k in ComponentKeys(w, plan.components)
      ensures Norm(w, k) == k
    {
      var c :| c in plan.components && k == Norm(w, c.name) != "";
      NormalizeIsNormal(c.name, w.fold);
    }
    if Hit(w, PlanKeys(w, spec, plan), changed) {
      var d :| d in PlanKeys(w, spec, plan) && Norm(w, d) in NormSet(w, changed);
      if d in Declared(spec, plan) {
        NormIn(w, Declared(spec, plan), Norm(w, d));
      }
    }
    if n :|
      && n in NormSet(w, changed)
      && (n in NormSet(w, Declared(spec, plan)) || n in ComponentKeys(w, plan.components))
    {
      if n in ComponentKeys(w, plan.components) {
        assert n in PlanKeys(w, spec, plan);
      } else {
        NormIn(w, Declared(spec, plan), n);
        var d :| d in Declared(spec, plan) && Norm(w, d) == n;
        assert d in PlanKeys(w, spec, plan);
      }
    }
  }

  // An agent owns a locked component: one of the locked names occurs in what it
  // owns, or in its name.
  predicate OwnsLocked(w: World, a: AgentArtifact, locked: seq<string>) {
    exists k :: k in locked && Owns(w, a, k)
  }

  // The same through normalized names, as the graph keeps them.
  lemma OwnershipIsDirect(w: World, a: AgentArtifact, locked: seq<string>)
    requires FoldOk(w.fold)
    ensures OwnsLocked(w, a, locked) <==> exists n :: n in NonBlank(w, locked) && Owns(w, a, n)
  {
    forall k
      ensures Owns(w, a, k) == Owns(w, a, Norm(w, k))
      ensures Norm(w, k) == "" ==> !Owns(w, a, k)
    {
      NormalizeIsNormal(k, w.fold);
      MatchesByNormalForm(k, Norm(w, k), a.owns, w.fold);
      MatchesByNormalForm(k, Norm(w, k), a.name, w.fold);
    }
    if OwnsLocked(w, a, locked) {
      var k :| k in locked && Owns(w, a, k);
      assert Norm(w, k) in NonBlank(w, locked) && Owns(w, a, Norm(w, k));
    }
    if n :| n in NonBlank(w, locked) && Owns(w, a, n) {
      var k :| k in locked && Norm(w, k) == n;
      assert Owns(w, a, k);
    }
  }

  // ---------------------------------------------------------------- building it

  ghost predicate DistinctStrategies(s: seq<Strategy>) {
    forall i, j :: 0 <= i < j < |s| ==> s[i].id != s[j].id
  }

  ghost predicate DistinctAgents(s: seq<AgentArtifact>) {
    forall i, j :: 0 <= i < j < |s| ==> s[i].id != s[j].id
  }

  ghost predicate DistinctPlans(s: seq<Plan>) {
    forall i, j :: 0 <= i < j < |s| ==> s[i].id != s[j].id
  }

  predicate IsOwner(owners: map<string, seq<Id>>, c: string, id: Id) {
    c in owners && id in owners[c]
  }

  ghost predicate OwnersOf(w: World, owners: map<string, seq<Id>>, agents: seq<AgentArtifact>,
      components: set<string>) {
    forall c, id :: IsOwner(owners, c, id) <==> c in components && OwnedBy(w, agents, c, id)
  }

  ghost predicate OwnedBy(w: World, agents: seq<AgentArtifact>, c: string, id: Id) {
    exists a :: a in agents && a.id == id && Owns(w, a, c)
  }

  function Appended(owners: map<string, seq<Id>>, c: string, id: Id): map<string, seq<Id>> {
    owners[c := (if c in owners then owners[c] else []) + [id]]
  }

  lemma AppendedOwner(owners: map<string, seq<Id>>, c: string, id: Id, x: string, y: Id)
    ensures IsOwner(Appended(owners, c, id), x, y) <==> IsOwner(owners, x, y) || (x == c && y == id)
  {
  }

  // One agent's components, in whatever order.
  method AddOwner(w: World, owners: map<string, seq<Id>>, a: AgentArtifact, components: set<string>)
      returns (r: map<string, seq<Id>>)
    ensures forall c, id :: IsOwner(r, c, id) <==>
        IsOwner(owners, c, id) || (c in components && Owns(w, a, c) && id == a.id)
  {
    r := owners;
    var todo := components;
    while todo != {}
      invariant todo <= components
      invariant forall c, id :: IsOwner(r, c, id) <==>
        IsOwner(owners, c, id) || (c in components - todo && Owns(w, a, c) && id == a.id)
      decreases |todo|
    {
      var c :| c in todo;
      todo := todo - {c};
      if Owns(w, a, c) {
        forall x, y
          ensures IsOwner(Appended(r, c, a.id), x, y) <==> IsOwner(r, x, y) || (x == c && y == a.id)
        {
          AppendedOwner(r, c, a.id, x, y);
        }
        r := Appended(r, c, a.id);
      }
    }
  }

  lemma OwnedBySnoc(w: World, agents: seq<AgentArtifact>, a: AgentArtifact, c: string, id: Id)
    ensures OwnedBy(w, agents + [a], c, id) <==> OwnedBy(w, agents, c, id) || (a.id == id && Owns(w, a, c))
  {
    assert a in agents + [a];
  }

  method BuildOwners(w: World, agents: seq<AgentArtifact>, components: set<string>)
      returns (owners: map<string, seq<Id>>)
    ensures OwnersOf(w, owners, agents, components)
  {
    owners := map[];
    for k := 0 to |agents|
      invariant OwnersOf(w, owners, agents[..k], components)
    {
      ghost var before := owners;
      owners := AddOwner(w, owners, agents[k], components);
      assert agents[..k + 1] == agents[..k] + [agents[k]];
      forall c, id
        ensures IsOwner(owners, c, id) <==> c in components && OwnedBy(w, agents[..k + 1], c, id)
      {
        assert IsOwner(before, c, id) <==> c in components && OwnedBy(w, agents[..k], c, id);
        OwnedBySnoc(w, agents[..k], agents[k], c, id);
      }
    }
    assert agents[..|agents|] == agents;
  }

  ghost predicate StrategyEntry(w: World, m: map<Id, seq<string>>, spec: Spec, s: Strategy) {
    s.id in m && m[s.id] == DependsOn(w, SpecKeys(spec), s.requiredInformation)
  }

  ghost predicate AgentEntry(w: World, m: map<Id, seq<string>>, spec: Spec, a: AgentArtifact) {
    a.id in m && m[a.id] == DependsOn(w, SpecKeys(spec), AgentTexts(a))
  }

  ghost predicate PlanEntry(w: World, m: map<Id, seq<string>>, spec: Spec, plan: Plan) {
    plan.id in m && m[plan.id] == PlanKeys(w, spec, plan)
  }

  method BuildDependencyGraph(w: World, spec: Spec, strategies: seq<Strategy>, agents: seq<AgentArtifact>,
      plans: seq<Plan>)
    returns (g: DependencyGraph)
    requires DistinctStrategies(strategies) && DistinctAgents(agents) && DistinctPlans(plans)
    ensures forall i :: 0 <= i < |strategies| ==> StrategyEntry(w, g.strategies, spec, strategies[i])
    ensures forall i :: 0 <= i < |agents| ==> AgentEntry(w, g.agents, spec, agents[i])
    ensures forall i :: 0 <= i < |plans| ==> PlanEntry(w, g.plans, spec, plans[i])
    ensures OwnersOf(w, g.owners, agents, KnownComponents(w, spec.lockedComponents, plans))
  {
    var byStrategy, byAgent, byPlan := map[], map[], map[];
    for k := 0 to |strategies|
      invariant forall i :: 0 <= i < k ==> StrategyEntry(w, byStrategy, spec, strategies[i])
    {
      byStrategy := byStrategy[strategies[k].id := DependsOn(w, SpecKeys(spec), strategies[k].requiredInformation)];
    }
    for k := 0 to |agents|
      invariant forall i :: 0 <= i < k ==> AgentEntry(w, byAgent, spec, agents[i])
    {
      byAgent := byAgent[agents[k].id := DependsOn(w, SpecKeys(spec), AgentTexts(agents[k]))];
    }
    for k := 0 to |plans|
      invariant forall i :: 0 <= i < k ==> PlanEntry(w, byPlan, spec, plans[i])
    {
      byPlan := byPlan[plans[k].id := PlanKeys(w, spec, plans[k])];
    }
    var owners := BuildOwners(w, agents, KnownComponents(w, spec.lockedComponents, plans));
    g := DependencyGraph(byStrategy, byAgent, byPlan, owners);
  }

  function Dependents(w: World, dependencies: map<Id, seq<string>>, changed: seq<string>): set<Id> {
    set id | id in dependencies && Hit(w, dependencies[id], changed)
  }

  // The agents owning a locked component, by the graph.
  function LockedOwners(w: World, owners: map<string, seq<Id>>, locked: seq<string>): set<Id> {
    set c, id | c in NormSet(w, locked) && c in owners && id in owners[c] :: id
  }

  lemma LockedOwnersAre(w: World, spec: Spec, owners: map<string, seq<Id>>, agents: seq<AgentArtifact>,
      plans: seq<Plan>, i: nat)
    requires FoldOk(w.fold) && DistinctAgents(agents) && i < |agents|
    requires OwnersOf(w, owners, agents, KnownComponents(w, spec.lockedComponents, plans))
    ensures agents[i].id in LockedOwners(w, owners, spec.lockedComponents)
        <==> OwnsLocked(w, agents[i], spec.lockedComponents)
  {
    var a, locked := agents[i], spec.lockedComponents;
    OwnershipIsDirect(w, a, locked);
    if a.id in LockedOwners(w, owners, locked) {
      var c :| c in NormSet(w, locked) && c in owners && a.id in owners[c];
      assert IsOwner(owners, c, a.id) && OwnedBy(w, agents, c, a.id);
      var b :| b in agents && b.id == a.id && Owns(w, b, c);
      SameAgent(agents, a, b);
      NormIn(w, locked, c);
      var k :| k in locked && Norm(w, k) == c;
      NormalizeIsNormal(k, w.fold);
      MatchesByNormalForm(k, c, a.owns, w.fold);
      MatchesByNormalForm(k, c, a.name, w.fold);
      assert Owns(w, a, k);
    }
    if OwnsLocked(w, a, locked) {
      var n :| n in NonBlank(w, locked) && Owns(w, a, n);
      assert n in KnownComponents(w, locked, plans) && n in NormSet(w, locked);
      assert OwnedBy(w, agents, n, a.id);
      assert IsOwner(owners, n, a.id);
    }
  }

  lemma SameAgent(agents: seq<AgentArtifact>, a: AgentArtifact, b: AgentArtifact)
    requires DistinctAgents(agents) && a in agents && b in agents && a.id == b.id
    ensures a == b
  {
    var i :| 0 <= i < |agents| && agents[i] == a;
    var j :| 0 <= j < |agents| && agents[j] == b;
  }

  // ---------------------------------------------------------------- the revision

  predicate NotRequeued(st: AgentState) {
    st == STOPPED || st == WORKING || st == READY
  }

  // Its inputs changed, and nothing it owns is locked.
  predicate Affected(w: World, a: AgentArtifact, changed: seq<string>, locked: seq<string>) {
    Touches(w, changed, AgentTexts(a)) && !OwnsLocked(w, a, locked)
  }

  function RevisedAgent(w: World, a: AgentArtifact, changed: seq<string>, locked: seq<string>): AgentArtifact {
    if Affected(w, a, changed, locked) && !NotRequeued(a.state) then a.(state := READY) else a
  }

  function RevisedStrategy(w: World, s: Strategy, changed: seq<string>): Strategy {
    if Touches(w, changed, s.requiredInformation) then s.(stale := true) else s
  }

  predicate PlanTouched(w: World, spec: Spec, plan: Plan, changed: seq<string>) {
    exists n :: n in NormSet(w, changed) && (n in NormSet(w, Declared(spec, plan))
        || n in ComponentKeys(w, plan.components))
  }

  function Relocked(w: World, components: seq<Component>, locked: seq<string>): seq<Component> {
    seq(|components|, k requires 0 <= k < |components| => components[k].(locked :=
        Norm(w, components[k].name) in NormSet(w, locked)))
  }

  function RevisedPlan(w: World, spec: Spec, plan: Plan, changed: seq<string>): Plan {
    plan.(components := Relocked(w, plan.components, spec.lockedComponents), stale := plan.stale
        || PlanTouched(w, spec, plan, changed))
  }

  // The latest run of an agent.
  datatype Run = Run(hasOutput: bool, stale: bool)

  datatype RevisionError = NotRevisable | NoSpec

  datatype RevisionResult = RevisionResult(changed: seq<string>, staleStrategies: seq<Id>, stalePlans: seq<Id>,
      staleRuns: seq<Id>, requeued: seq<Id>)

  // The listed ids are those of the rows that went stale.
  ghost predicate StrategiesListed(before: seq<Strategy>, after: seq<Strategy>, listed: seq<Id>) {
    && |after| == |before|
    && forall id :: id in listed <==>
         exists i :: 0 <= i < |before| && before[i].id == id && !before[i].stale && after[i].stale
  }

  ghost predicate PlansListed(before: seq<Plan>, after: seq<Plan>, listed: seq<Id>) {
    && |after| == |before|
    && forall id :: id in listed <==>
         exists i :: 0 <= i < |before| && before[i].id == id && !before[i].stale && after[i].stale
  }

  // Runs go by the id of their agent.
  ghost predicate RunsListed(before: map<Id, Run>, after: map<Id, Run>, listed: seq<Id>) {
    && after.Keys == before.Keys
    && forall id :: id in listed <==> id in before && !before[id].stale && after[id].stale
  }

  // The listed ids are those of the agents that were not READY and now are.
  ghost predicate AgentsListed(before: seq<AgentArtifact>, after: seq<AgentArtifact>, listed: seq<Id>) {
    && |after| == |before|
    && forall id :: id in listed <==>
         exists i :: 0 <= i < |before| && before[i].id == id && before[i].state != READY && after[i].state == READY
  }

  method ReviseStrategies(strategies: seq<Strategy>, hit: set<Id>) returns (r: seq<Strategy>, marked: seq<Id>)
    ensures |r| == |strategies|
    ensures forall i :: 0 <= i < |r| ==> r[i] == if strategies[i].id in hit then strategies[i].(stale := true)
        else strategies[i]
    ensures forall id :: id in marked <==>
        exists i :: 0 <= i < |strategies| && strategies[i].id == id && id in hit && !strategies[i].stale
  {
    r, marked := [], [];
    for k := 0 to |strategies|
      invariant |r| == k
      invariant forall i :: 0 <= i < k ==> r[i] == if strategies[i].id in hit then strategies[i].(stale := true)
          else strategies[i]
      invariant forall id :: id in marked <==>
          exists i :: 0 <= i < k && strategies[i].id == id && id in hit && !strategies[i].stale
    {
      var s := strategies[k];
      if s.id in hit && !s.stale {
        marked := marked + [s.id];
        s := s.(stale := true);
      }
      r := r + [s];
    }
  }

  method RevisePlans(w: World, plans: seq<Plan>, hit: set<Id>, locked: seq<string>)
      returns (r: seq<Plan>, marked: seq<Id>)
    ensures |r| == |plans|
    ensures forall i :: 0 <= i < |r| ==>
      r[i] == plans[i].(components := Relocked(w, plans[i].components, locked), stale := plans[i].stale
          || plans[i].id in hit)
    ensures forall id :: id in marked <==>
        exists i :: 0 <= i < |plans| && plans[i].id == id && id in hit && !plans[i].stale
  {
    r, marked := [], [];
    for k := 0 to |plans|
      invariant |r| == k
      invariant forall i :: 0 <= i < k ==>
        r[i] == plans[i].(components := Relocked(w, plans[i].components, locked), stale := plans[i].stale
            || plans[i].id in hit)
      invariant forall id :: id in marked <==>
          exists i :: 0 <= i < k && plans[i].id == id && id in hit && !plans[i].stale
    {
      var plan := plans[k].(components := Relocked(w, plans[k].components, locked));
      if plan.id in hit && !plan.stale {
        marked := marked + [plan.id];
        plan := plan.(stale := true);
      }
      r := r + [plan];
    }
  }

  predicate Goes(a: AgentArtifact, dependent: set<Id>, owners: set<Id>) {
    a.id in dependent && a.id !in owners
  }

  // The run of an agent whose output no longer stands.
  predicate Outdates(runs: map<Id, Run>, id: Id) {
    id in runs && runs[id].hasOutput && !runs[id].stale
  }

  method ReviseAgents(agents: seq<AgentArtifact>, dependent: set<Id>, owners: set<Id>, runs: map<Id, Run>)
    returns (r: seq<AgentArtifact>, after: map<Id, Run>, staleRuns: seq<Id>, requeued: seq<Id>)
    requires DistinctAgents(agents)
    ensures |r| == |agents|
    ensures forall i :: 0 <= i < |r| ==>
      r[i] == if Goes(agents[i], dependent, owners) && !NotRequeued(agents[i].state) then agents[i].(state := READY)
          else agents[i]
    ensures after.Keys == runs.Keys
    ensures forall id :: id in runs ==> after[id] == if id in staleRuns then runs[id].(stale := true) else runs[id]
    ensures forall id :: id in staleRuns <==>
        Outdates(runs, id) && exists i :: 0 <= i < |agents| && agents[i].id == id && Goes(agents[i], dependent, owners)
    ensures forall id :: id in requeued <==>
      exists i :: 0 <= i < |agents| && agents[i].id == id && Goes(agents[i], dependent, owners)
          && !NotRequeued(agents[i].state)
  {
    r, after, staleRuns, requeued := [], runs, [], [];
    for k := 0 to |agents|
      invariant |r| == k && after.Keys == runs.Keys
      invariant forall i :: 0 <= i < k ==>
        r[i] == if Goes(agents[i], dependent, owners) && !NotRequeued(agents[i].state) then agents[i].(state := READY)
            else agents[i]
      invariant forall id :: id in runs ==> after[id] == if id in staleRuns then runs[id].(stale := true) else runs[id]
      invariant forall id :: id in staleRuns <==>
          Outdates(runs, id) && exists i :: 0 <= i < k && agents[i].id == id && Goes(agents[i], dependent, owners)
      invariant forall id :: id in requeued <==>
        exists i :: 0 <= i < k && agents[i].id == id && Goes(agents[i], dependent, owners)
            && !NotRequeued(agents[i].state)
    {
      var a := agents[k];
      if Goes(a, dependent, owners) {
        if a.id in after && after[a.id].hasOutput && !after[a.id].stale {
          after := after[a.id := after[a.id].(stale := true)];
          staleRuns := staleRuns + [a.id];
        }
        if !NotRequeued(a.state) {
          requeued := requeued + [a.id];
          a := a.(state := READY);
        }
      }
      r := r + [a];
    }
  }

  // ---------------------------------------------------------------- the service

  ghost predicate StrategiesHit(w: World, strategies: seq<Strategy>, hit: set<Id>, changed: seq<string>) {
    forall i :: 0 <= i < |strategies| ==> (strategies[i].id in hit
        <==> Touches(w, changed, strategies[i].requiredInformation))
  }

  ghost predicate PlansHit(w: World, spec: Spec, plans: seq<Plan>, hit: set<Id>, changed: seq<string>) {
    forall i :: 0 <= i < |plans| ==> (plans[i].id in hit <==> PlanTouched(w, spec, plans[i], changed))
  }

  ghost predicate AgentsHit(w: World, agents: seq<AgentArtifact>, hit: set<Id>, owners: set<Id>, changed: seq<string>,
      locked: seq<string>) {
    forall i :: 0 <= i < |agents| ==> (Goes(agents[i], hit, owners) <==> Affected(w, agents[i], changed, locked))
  }

  // The graph's answers are the direct definitions.
  lemma GraphAnswers(w: World, spec: Spec, change: ConstraintChange, g: DependencyGraph,
                     strategies: seq<Strategy>, agents: seq<AgentArtifact>, plans: seq<Plan>)
    requires FoldOk(w.fold) && DistinctAgents(agents)
    requires var newSpec := ChangedSpec(w, spec, change);
      && (forall i :: 0 <= i < |strategies| ==> StrategyEntry(w, g.strategies, newSpec, strategies[i]))
      && (forall i :: 0 <= i < |agents| ==> AgentEntry(w, g.agents, newSpec, agents[i]))
      && (forall i :: 0 <= i < |plans| ==> PlanEntry(w, g.plans, newSpec, plans[i]))
      && OwnersOf(w, g.owners, agents, KnownComponents(w, newSpec.lockedComponents, plans))
    ensures var newSpec, changed := ChangedSpec(w, spec, change), ChangedKeys(w, spec, change);
      && StrategiesHit(w, strategies, Dependents(w, g.strategies, changed), changed)
      && PlansHit(w, newSpec, plans, Dependents(w, g.plans, changed), changed)
      && AgentsHit(w, agents, Dependents(w, g.agents, changed), LockedOwners(w, g.owners, newSpec.lockedComponents),
          changed, newSpec.lockedComponents)
  {
    var newSpec, changed := ChangedSpec(w, spec, change), ChangedKeys(w, spec, change);
    forall i | 0 <= i < |strategies|
      ensures strategies[i].id in Dependents(w, g.strategies, changed)
          <==> Touches(w, changed, strategies[i].requiredInformation)
    {
      assert StrategyEntry(w, g.strategies, newSpec, strategies[i]);
      LookupIsDirect(w, spec, change, strategies[i].requiredInformation);
    }
    forall i | 0 <= i < |agents|
      ensures Goes(agents[i], Dependents(w, g.agents, changed), LockedOwners(w, g.owners, newSpec.lockedComponents))
              <==> Affected(w, agents[i], changed, newSpec.lockedComponents)
    {
      AgentAnswer(w, spec, change, g, agents, plans, i);
    }
    forall i | 0 <= i < |plans|
      ensures plans[i].id in Dependents(w, g.plans, changed) <==> PlanTouched(w, newSpec, plans[i], changed)
    {
      assert PlanEntry(w, g.plans, newSpec, plans[i]);
      PlanLookupIsDirect(w, newSpec, plans[i], changed);
    }
  }

  lemma AgentAnswer(w: World, spec: Spec, change: ConstraintChange, g: DependencyGraph, agents: seq<AgentArtifact>,
      plans: seq<Plan>, i: nat)
    requires FoldOk(w.fold) && DistinctAgents(agents) && i < |agents|
    requires var newSpec := ChangedSpec(w, spec, change);
      AgentEntry(w, g.agents, newSpec, agents[i]) && OwnersOf(w, g.owners, agents,
          KnownComponents(w, newSpec.lockedComponents, plans))
    ensures var newSpec, changed := ChangedSpec(w, spec, change), ChangedKeys(w, spec, change);
      Goes(agents[i], Dependents(w, g.agents, changed), LockedOwners(w, g.owners, newSpec.lockedComponents))
      <==> Affected(w, agents[i], changed, newSpec.lockedComponents)
  {
    LookupIsDirect(w, spec, change, AgentTexts(agents[i]));
    LockedOwnersAre(w, ChangedSpec(w, spec, change), g.owners, agents, plans, i);
  }

  ghost predicate StrategiesRevised(w: World, before: seq<Strategy>, after: seq<Strategy>, changed: seq<string>) {
    |after| == |before| && forall i :: 0 <= i < |after| ==> after[i] == RevisedStrategy(w, before[i], changed)
  }

  ghost predicate PlansRevised(w: World, spec: Spec, before: seq<Plan>, after: seq<Plan>, changed: seq<string>) {
    |after| == |before| && forall i :: 0 <= i < |after| ==> after[i] == RevisedPlan(w, spec, before[i], changed)
  }

  ghost predicate AgentsRevised(w: World, before: seq<AgentArtifact>, after: seq<AgentArtifact>, changed: seq<string>,
      locked: seq<string>) {
    |after| == |before| && forall i :: 0 <= i < |after| ==> after[i] == RevisedAgent(w, before[i], changed, locked)
  }

  ghost predicate AffectedId(w: World, agents: seq<AgentArtifact>, id: Id, changed: seq<string>, locked: seq<string>) {
    exists i :: 0 <= i < |agents| && agents[i].id == id && Affected(w, agents[i], changed, locked)
  }

  // The latest output of every affected agent is stale now, no other.
  ghost predicate RunsRevised(w: World, agents: seq<AgentArtifact>, before: map<Id, Run>, after: map<Id, Run>,
      changed: seq<string>, locked: seq<string>) {
    && after.Keys == before.Keys
    && forall id :: id in before ==> after[id] == RevisedRun(before[id], AffectedId(w, agents, id, changed, locked))
  }

  function RevisedRun(run: Run, affected: bool): Run {
    if run.hasOutput && affected then run.(stale := true) else run
  }

  lemma StrategiesFollow(w: World, before: seq<Strategy>, after: seq<Strategy>, hit: set<Id>, changed: seq<string>)
    requires StrategiesHit(w, before, hit, changed) && |after| == |before|
    requires forall i :: 0 <= i < |after| ==> after[i] == if before[i].id in hit then before[i].(stale := true)
        else before[i]
    ensures StrategiesRevised(w, before, after, changed)
  {
  }

  lemma PlansFollow(w: World, spec: Spec, before: seq<Plan>, after: seq<Plan>, hit: set<Id>, changed: seq<string>)
    requires PlansHit(w, spec, before, hit, changed) && |after| == |before|
    requires forall i :: 0 <= i < |after| ==>
      after[i] == before[i].(components := Relocked(w, before[i].components, spec.lockedComponents),
          stale := before[i].stale || before[i].id in hit)
    ensures PlansRevised(w, spec, before, after, changed)
  {
  }

  lemma AgentsFollow(w: World, before: seq<AgentArtifact>, after: seq<AgentArtifact>, hit: set<Id>, owners: set<Id>,
                     changed: seq<string>, locked: seq<string>)
    requires AgentsHit(w, before, hit, owners, changed, locked) && |after| == |before|
    requires forall i :: 0 <= i < |after| ==>
      after[i] == if Goes(before[i], hit, owners) && !NotRequeued(before[i].state) then before[i].(state := READY)
          else before[i]
    ensures AgentsRevised(w, before, after, changed, locked)
  {
  }

  lemma RunsFollow(w: World, agents: seq<AgentArtifact>, before: map<Id, Run>, after: map<Id, Run>, staleRuns: seq<Id>,
                   hit: set<Id>, owners: set<Id>, changed: seq<string>, locked: seq<string>)
    requires AgentsHit(w, agents, hit, owners, changed, locked) && after.Keys == before.Keys
    requires forall id :: id in before ==> after[id] == if id in staleRuns then before[id].(stale := true)
        else before[id]
    requires forall id :: id in staleRuns <==>
        Outdates(before, id) && exists i :: 0 <= i < |agents| && agents[i].id == id && Goes(agents[i], hit, owners)
    ensures RunsRevised(w, agents, before, after, changed, locked)
  {
    forall id | id in before
      ensures after[id] == RevisedRun(before[id], AffectedId(w, agents, id, changed, locked))
    {
      assert AffectedId(w, agents, id, changed, locked)
          <==> exists i :: 0 <= i < |agents| && agents[i].id == id && Goes(agents[i], hit, owners);
    }
  }

  lemma RevisedDistinct(w: World, spec: Spec, s0: seq<Strategy>, s1: seq<Strategy>, a0: seq<AgentArtifact>,
      a1: seq<AgentArtifact>,
                        p0: seq<Plan>, p1: seq<Plan>, changed: seq<string>)
    requires DistinctStrategies(s0) && DistinctAgents(a0) && DistinctPlans(p0)
    requires StrategiesRevised(w, s0, s1, changed) && AgentsRevised(w, a0, a1, changed, spec.lockedComponents)
        && PlansRevised(w, spec, p0, p1, changed)
    ensures DistinctStrategies(s1) && DistinctAgents(a1) && DistinctPlans(p1)
  {
    assert forall i :: 0 <= i < |s1| ==> s1[i].id == s0[i].id;
    assert forall i :: 0 <= i < |a1| ==> a1[i].id == a0[i].id;
    assert forall i :: 0 <= i < |p1| ==> p1[i].id == p0[i].id;
  }

  // What the change hits, by the dependency graph of the new spec.
  method FindDependents(w: World, spec: Spec, change: ConstraintChange, strategies: seq<Strategy>,
      agents: seq<AgentArtifact>, plans: seq<Plan>)
    returns (newSpec: Spec, changed: seq<string>, hitStrategies: set<Id>, hitAgents: set<Id>, owners: set<Id>,
        hitPlans: set<Id>)
    requires FoldOk(w.fold) && DistinctStrategies(strategies) && DistinctAgents(agents) && DistinctPlans(plans)
    ensures newSpec == ChangedSpec(w, spec, change) && changed == ChangedKeys(w, spec, change)
    ensures StrategiesHit(w, strategies, hitStrategies, changed)
    ensures PlansHit(w, newSpec, plans, hitPlans, changed)
    ensures AgentsHit(w, agents, hitAgents, owners, changed, newSpec.lockedComponents)
  {
    newSpec, changed := ApplyChangeToSpec(w, spec, change);
    var g := BuildDependencyGraph(w, newSpec, strategies, agents, plans);
    hitStrategies, hitAgents, hitPlans := Dependents(w, g.strategies, changed), Dependents(w, g.agents, changed),
        Dependents(w, g.plans, changed);
    owners := LockedOwners(w, g.owners, newSpec.lockedComponents);
    GraphAnswers(w, spec, change, g, strategies, agents, plans);
  }

  lemma RequeuedListed(agents: seq<AgentArtifact>, r: seq<AgentArtifact>, hit: set<Id>, owners: set<Id>,
      requeued: seq<Id>)
    requires |r| == |agents|
    requires forall i :: 0 <= i < |r| ==>
      r[i] == if Goes(agents[i], hit, owners) && !NotRequeued(agents[i].state) then agents[i].(state := READY)
          else agents[i]
    requires forall id :: id in requeued <==>
      exists i :: 0 <= i < |agents| && agents[i].id == id && Goes(agents[i], hit, owners)
          && !NotRequeued(agents[i].state)
    ensures AgentsListed(agents, r, requeued)
  {
    forall i | 0 <= i < |agents|
      ensures Goes(agents[i], hit, owners) && !NotRequeued(agents[i].state) <==>
        agents[i].state != READY && r[i].state == READY
    {
    }
  }

  lemma StaleRunsListed(before: map<Id, Run>, after: map<Id, Run>, staleRuns: seq<Id>)
    requires after.Keys == before.Keys
    requires forall id :: id in before ==> after[id] == if id in staleRuns then before[id].(stale := true)
        else before[id]
    requires forall id :: id in staleRuns ==> Outdates(before, id)
    ensures RunsListed(before, after, staleRuns)
  {
  }

  // The agents and runs after the change.
  method RequeueAgents(w: World, agents: seq<AgentArtifact>, runs: map<Id, Run>, hit: set<Id>, owners: set<Id>,
                       ghost changed: seq<string>, ghost locked: seq<string>)
    returns (r: seq<AgentArtifact>, after: map<Id, Run>, staleRuns: seq<Id>, requeued: seq<Id>)
    requires DistinctAgents(agents) && AgentsHit(w, agents, hit, owners, changed, locked)
    ensures AgentsRevised(w, agents, r, changed, locked) && RunsRevised(w, agents, runs, after, changed, locked)
    ensures AgentsListed(agents, r, requeued) && RunsListed(runs, after, staleRuns)
  {
    r, after, staleRuns, requeued := ReviseAgents(agents, hit, owners, runs);
    RequeuedListed(agents, r, hit, owners, requeued);
    StaleRunsListed(runs, after, staleRuns);
    AgentsFollow(w, agents, r, hit, owners, changed, locked);
    RunsFollow(w, agents, runs, after, staleRuns, hit, owners, changed, locked);
  }

  method StaleStrategies(w: World, strategies: seq<Strategy>, hit: set<Id>, ghost changed: seq<string>)
      returns (r: seq<Strategy>, marked: seq<Id>)
    requires StrategiesHit(w, strategies, hit, changed)
    ensures StrategiesRevised(w, strategies, r, changed) && StrategiesListed(strategies, r, marked)
  {
    r, marked := ReviseStrategies(strategies, hit);
    StrategiesFollow(w, strategies, r, hit, changed);
  }

  method StalePlans(w: World, spec: Spec, plans: seq<Plan>, hit: set<Id>, ghost changed: seq<string>)
      returns (r: seq<Plan>, marked: seq<Id>)
    requires PlansHit(w, spec, plans, hit, changed)
    ensures PlansRevised(w, spec, plans, r, changed) && PlansListed(plans, r, marked)
  {
    r, marked := RevisePlans(w, plans, hit, spec.lockedComponents);
    PlansFollow(w, spec, plans, r, hit, changed);
  }

  // The rows a revision reads and writes.
  datatype Artifacts = Artifacts(spec: Spec, strategies: seq<Strategy>, agents: seq<AgentArtifact>, plans: seq<Plan>,
      runs: map<Id, Run>)

  ghost predicate DistinctRows(a: Artifacts) {
    DistinctStrategies(a.strategies) && DistinctAgents(a.agents) && DistinctPlans(a.plans)
  }

  // What depends on a changed key goes stale, and nothing else does; an agent
  // runs again exactly when it depends on a changed key, owns no locked
  // component, and is not STOPPED, WORKING or READY.
  ghost predicate Revised(w: World, a: Artifacts, b: Artifacts, change: ConstraintChange) {
    var changed := ChangedKeys(w, a.spec, change);
    && b.spec == ChangedSpec(w, a.spec, change)
    && StrategiesRevised(w, a.strategies, b.strategies, changed)
    && PlansRevised(w, b.spec, a.plans, b.plans, changed)
    && AgentsRevised(w, a.agents, b.agents, changed, b.spec.lockedComponents)
    && RunsRevised(w, a.agents, a.runs, b.runs, changed, b.spec.lockedComponents)
  }

  // The rows a revision leaves.
  ghost function RevisedArtifacts(w: World, a: Artifacts, change: ConstraintChange): Artifacts {
    var spec, changed := ChangedSpec(w, a.spec, change), ChangedKeys(w, a.spec, change);
    Artifacts(
      spec,
      seq(|a.strategies|, i requires 0 <= i < |a.strategies| => RevisedStrategy(w, a.strategies[i], changed)),
      seq(|a.agents|, i requires 0 <= i < |a.agents| => RevisedAgent(w, a.agents[i], changed, spec.lockedComponents)),
      seq(|a.plans|, i requires 0 <= i < |a.plans| => RevisedPlan(w, spec, a.plans[i], changed)),
      map id | id in a.runs :: RevisedRun(a.runs[id], AffectedId(w, a.agents, id, changed, spec.lockedComponents)))
  }

  lemma RevisedIsFunction(w: World, a: Artifacts, b: Artifacts, change: ConstraintChange)
    ensures Revised(w, a, b, change) <==> b == RevisedArtifacts(w, a, change)
  {
    var r := RevisedArtifacts(w, a, change);
    if Revised(w, a, b, change) {
      assert b.strategies == r.strategies;
      assert b.agents == r.agents;
      assert b.plans == r.plans;
      assert b.runs == r.runs;
    }
  }

  lemma RevisedRows(w: World, a: Artifacts, change: ConstraintChange)
    requires DistinctRows(a)
    ensures DistinctRows(RevisedArtifacts(w, a, change))
  {
    var b := RevisedArtifacts(w, a, change);
    RevisedIsFunction(w, a, b, change);
    RevisedDistinct(w, b.spec, a.strategies, b.strategies, a.agents, b.agents, a.plans, b.plans,
        ChangedKeys(w, a.spec, change));
  }

  // The report names the changed keys and exactly the rows that changed.
  ghost predicate Reported(w: World, a: Artifacts, b: Artifacts, change: ConstraintChange, result: RevisionResult) {
    && result.changed == ChangedKeys(w, a.spec, change)
    && StrategiesListed(a.strategies, b.strategies, result.staleStrategies)
    && PlansListed(a.plans, b.plans, result.stalePlans)
    && RunsListed(a.runs, b.runs, result.staleRuns)
    && AgentsListed(a.agents, b.agents, result.requeued)
  }

  method ReviseAll(w: World, a: Artifacts, change: ConstraintChange) returns (b: Artifacts, result: RevisionResult)
    requires FoldOk(w.fold) && DistinctRows(a)
    ensures b == RevisedArtifacts(w, a, change) && Revised(w, a, b, change)
    ensures Reported(w, a, b, change, result)
  {
    var newSpec, changed, hitStrategies, hitAgents, owners,
        hitPlans := FindDependents(w, a.spec, change, a.strategies, a.agents, a.plans);
    var strategies, markedStrategies := StaleStrategies(w, a.strategies, hitStrategies, changed);
    var plans, markedPlans := StalePlans(w, newSpec, a.plans, hitPlans, changed);
    var agents, runs, staleRuns, requeued := RequeueAgents(w, a.agents, a.runs, hitAgents, owners, changed,
        newSpec.lockedComponents);
    b := Artifacts(newSpec, strategies, agents, plans, runs);
    RevisedIsFunction(w, a, b, change);
    result := RevisionResult(changed, markedStrategies, markedPlans, staleRuns, requeued);
  }

  lemma RevisionIsAllowed(status: MissionStatus)
    requires status == USER_DECISION_PENDING || status == PLAN_OPTIONS_READY
    ensures IsAllowed(status, MISSION_REVISION_RUNNING) && IsAllowed(MISSION_REVISION_RUNNING, REPLAN_DECISION_RUNNING)
  {
  }

  class RevisionService {
    var status: MissionStatus
    var hasSpec: bool
    var artifacts: Artifacts
    const w: World

    // Rows have distinct ids.
    ghost predicate Valid()
      reads this
    {
      FoldOk(w.fold) && DistinctRows(artifacts)
    }

    constructor (w: World, status: MissionStatus, hasSpec: bool, artifacts: Artifacts)
      requires FoldOk(w.fold) && DistinctRows(artifacts)
      ensures Valid() && this.status == status && this.hasSpec == hasSpec && this.artifacts == artifacts && this.w == w
    {
      this.w, this.status, this.hasSpec, this.artifacts := w, status, hasSpec, artifacts;
    }

    predicate Revisable()
      reads this
    {
      status == USER_DECISION_PENDING || status == PLAN_OPTIONS_READY
    }

    method Apply(change: ConstraintChange) returns (r: Result<RevisionResult, RevisionError>)
      requires Valid()
      modifies this
      ensures Valid() && hasSpec == old(hasSpec)
      ensures r.Ok? <==> old(Revisable()) && old(hasSpec)
      ensures r.Err? ==> status == old(status) && artifacts == old(artifacts)
      ensures r.Ok? ==> status == REPLAN_DECISION_RUNNING && artifacts == RevisedArtifacts(w, old(artifacts), change)
      ensures r.Ok? ==> Reported(w, old(artifacts), artifacts, change, r.value)
    {
      if !Revisable() {
        return Err(NotRevisable);
      }
      if !hasSpec {
        return Err(NoSpec);
      }
      RevisionIsAllowed(status);
      status := MISSION_REVISION_RUNNING;
      var revised, result := ReviseAll(w, artifacts, change);
      RevisedRows(w, artifacts, change);
      artifacts := revised;
      status := REPLAN_DECISION_RUNNING;
      r := Ok(result);
    }
  }
}
