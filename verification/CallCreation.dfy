// Creating a call task at the remote service, when requests and replies may be
// lost, delayed or duplicated: a replay is identical, so it never dials twice.
module CallCreation {
  import opened Models
  import Ordering

  type Key = string
  type Bytes = string
  type TaskId = nat

  datatype Recipient = Recipient(phone: string, region: Option<string>, locale: Option<string>)

  datatype Intent = Intent(
    id: Id,
    missionId: Id,
    goal: string,
    purpose: string,
    recipients: seq<Recipient>,
    resultSchema: Option<Json>,
    recipientSchema: Option<Json>)

  datatype CreateRequest = CreateRequest(
    task: string,
    recipients: seq<Recipient>,
    missionId: Id,
    intentId: Id,
    resultSchema: Option<Json>,
    recipientSchema: Option<Json>,
    webhookUrl: Option<string>)

  // What makes up a request: the key of an intent, its task text, the canonical
  // encoding; and the one setting that enters it.
  datatype World = World(
    key: Intent -> Key,
    taskText: Intent -> string,
    encode: CreateRequest -> Bytes,
    webhookUrl: Option<string>)

  function Phones(v: Intent): multiset<string> {
    multiset(seq(|v.recipients|, k requires 0 <= k < |v.recipients| => v.recipients[k].phone))
  }

  function Stem(i: Id): string {
    "callswarm-" + i + "-"
  }

  function BuildCreateRequest(w: World, v: Intent): CreateRequest {
    CreateRequest(w.taskText(v), v.recipients, v.missionId, v.id, v.resultSchema, v.recipientSchema, w.webhookUrl)
  }

  function BytesOf(w: World, v: Intent): Bytes {
    w.encode(BuildCreateRequest(w, v))
  }

  // ---------------------------------------------------------------- what a key identifies

  // ",".join(parts)
  function Join(parts: seq<string>): string
    decreases |parts|, 0
  {
    if parts == [] then "" else parts[0] + Tail(parts[1..])
  }

  function Tail(parts: seq<string>): string
    decreases |parts|, 1
  {
    if parts == [] then "" else "," + Join(parts)
  }

  // What is hashed: the id, the goal, and the phone numbers in order.
  function Material(v: Intent): string {
    v.id + "|" + v.goal + "|" + Join(Ordering.SortedAll(Phones(v)))
  }

  const DIGEST_LENGTH := 32

  ghost predicate DigestSized(digest: string -> string) {
    forall material :: |digest(material)| == DIGEST_LENGTH
  }

  // The key the program derives; `digest` is its cut-off hash.
  function IdempotencyKey(digest: string -> string, v: Intent): Key {
    Stem(v.id) + digest(Material(v))
  }

  // A key shaped like those of intent i.
  predicate NamesIntent(k: Key, i: Id) {
    |k| == |Stem(i)| + DIGEST_LENGTH && k[..|Stem(i)|] == Stem(i)
  }

  lemma KeyNamesOneIntent(k: Key, i: Id, j: Id)
    requires NamesIntent(k, i) && NamesIntent(k, j)
    ensures i == j
  {
    assert |i| == |j|;
    assert i == Stem(i)[10..10 + |i|] && j == Stem(j)[10..10 + |j|];
    assert Stem(i) == Stem(j);
  }

  // Every key is shaped like those of its intent.
  ghost predicate KeysNameIntents(w: World) {
    forall v :: NamesIntent(w.key(v), v.id)
  }

  lemma IdempotencyKeyNames(digest: string -> string, v: Intent)
    requires DigestSized(digest)
    ensures NamesIntent(IdempotencyKey(digest, v), v.id)
  {
    assert IdempotencyKey(digest, v)[..|Stem(v.id)|] == Stem(v.id);
  }

  // The program's keys do that.
  lemma ProgramKeysName(digest: string -> string, w: World)
    requires DigestSized(digest) && forall v :: w.key(v) == IdempotencyKey(digest, v)
    ensures KeysNameIntents(w)
  {
    forall v
      ensures NamesIntent(w.key(v), v.id)
    {
      IdempotencyKeyNames(digest, v);
    }
  }

  // A stored number is a plus sign and digits, so it holds no separator.
  predicate PlainNumber(p: string) {
    p != "" && ',' !in p && '|' !in p
  }

  predicate PlainNumbers(v: Intent) {
    forall p :: p in Phones(v) ==> PlainNumber(p)
  }

  lemma BeforeComma(x: string, u: string, k: int)
    requires ',' !in x && 0 <= k < |x|
    ensures (x + u)[k] != ','
  {
    assert (x + u)[k] == x[k] && x[k] in x;
  }

  // Two texts that run up to a comma, or to the end, break at the same place.
  lemma SameHead(x: string, u: string, y: string, v: string)
    requires ',' !in x && ',' !in y && x + u == y + v
    requires (u == "" || u[0] == ',') && (v == "" || v[0] == ',')
    ensures x == y && u == v
  {
    var all := x + u;
    if |y| < |x| {
      BeforeComma(x, u, |y|);
    } else if |x| < |y| {
      BeforeComma(y, v, |x|);
    }
    assert x == all[..|x|] && y == all[..|y|] && u == all[|x|..] && v == all[|y|..];
  }

  lemma JoinOfSome(parts: seq<string>)
    requires forall p :: p in parts ==> PlainNumber(p)
    ensures Join(parts) == "" <==> parts == []
  {
    assert parts != [] ==> PlainNumber(parts[0]);
  }

  lemma {:induction false} JoinInjective(a: seq<string>, b: seq<string>)
    requires (forall p :: p in a ==> PlainNumber(p)) && (forall p :: p in b ==> PlainNumber(p))
    requires Join(a) == Join(b)
    ensures a == b
    decreases |a|
  {
    JoinOfSome(a);
    JoinOfSome(b);
    if a != [] {
      var c, d := a[1..], b[1..];
      assert PlainNumber(a[0]) && PlainNumber(b[0]);
      SameHead(a[0], Tail(c), b[0], Tail(d));
      if c != [] {
        assert Join(c) == Tail(c)[1..] && Join(d) == Tail(d)[1..];
        JoinInjective(c, d);
      }
      assert a == [a[0]] + c && b == [b[0]] + d;
    }
  }

  lemma {:induction false} JoinPlain(parts: seq<string>)
    requires forall p :: p in parts ==> PlainNumber(p)
    ensures '|' !in Join(parts)
    decreases |parts|
  {
    if parts != [] {
      JoinPlain(parts[1..]);
      assert PlainNumber(parts[0]);
    }
  }

  lemma AfterLastBar(x: string, p: string, k: int)
    requires '|' !in p && |x| < k <= |x| + |p|
    ensures (x + "|" + p)[k] != '|'
  {
    assert (x + "|" + p)[k] == p[k - |x| - 1] && p[k - |x| - 1] in p;
  }

  // A text breaks at its last bar in one way.
  lemma SameLastBar(x: string, p: string, y: string, q: string)
    requires '|' !in p && '|' !in q && x + "|" + p == y + "|" + q
    ensures x == y && p == q
  {
    var all := x + "|" + p;
    assert |all| == |y + "|" + q|;
    assert all[|x|] == '|' && (y + "|" + q)[|y|] == '|';
    if |x| < |y| {
      AfterLastBar(x, p, |y|);
    } else if |y| < |x| {
      AfterLastBar(y, q, |x|);
    }
    assert x == all[..|x|] && y == all[..|y|] && p == all[|x| + 1..] && q == all[|y| + 1..];
  }

  // Goals may hold any text, bars and commas included; still nothing is confused.
  lemma MaterialInjective(a: Intent, b: Intent)
    requires PlainNumbers(a) && PlainNumbers(b) && a.id == b.id && Material(a) == Material(b)
    ensures a.goal == b.goal && Phones(a) == Phones(b)
  {
    var p, q := Ordering.SortedAll(Phones(a)), Ordering.SortedAll(Phones(b));
    Ordering.SortedAllLists(Phones(a));
    Ordering.SortedAllLists(Phones(b));
    assert forall x :: x in p ==> x in multiset(p);
    assert forall x :: x in q ==> x in multiset(q);
    JoinPlain(p);
    JoinPlain(q);
    var front := a.id + "|";
    assert front + a.goal + "|" + Join(p) == front + b.goal + "|" + Join(q);
    SameLastBar(front + a.goal, Join(p), front + b.goal, Join(q));
    assert a.goal == (front + a.goal)[|front|..] && b.goal == (front + b.goal)[|front|..];
    JoinInjective(p, q);
  }

  // The hash keeps these two apart.
  predicate Apart(digest: string -> string, a: Intent, b: Intent) {
    digest(Material(a)) == digest(Material(b)) ==> Material(a) == Material(b)
  }

  predicate SameIdentity(a: Intent, b: Intent) {
    a.id == b.id && a.goal == b.goal && Phones(a) == Phones(b)
  }

  // A key covers the intent id, its goal and its phone numbers in any order, and
  // nothing else.
  lemma SameKeyIff(digest: string -> string, a: Intent, b: Intent)
    requires DigestSized(digest) && Apart(digest, a, b) && PlainNumbers(a) && PlainNumbers(b)
    ensures IdempotencyKey(digest, a) == IdempotencyKey(digest, b) <==> SameIdentity(a, b)
  {
    var k := IdempotencyKey(digest, a);
    if k == IdempotencyKey(digest, b) {
      IdempotencyKeyNames(digest, a);
      IdempotencyKeyNames(digest, b);
      KeyNamesOneIntent(k, a.id, b.id);
      assert k[|Stem(a.id)|..] == digest(Material(a)) && k[|Stem(b.id)|..] == digest(Material(b));
      MaterialInjective(a, b);
    }
  }

  // What else goes into a request: the mission, each recipient's region, locale
  // and place in the list, the two schemas, and whatever they and the purpose add
  // to the task text.
  predicate DifferBeyondKey(w: World, a: Intent, b: Intent) {
    || a.missionId != b.missionId
    || a.recipients != b.recipients
    || a.resultSchema != b.resultSchema
    || a.recipientSchema != b.recipientSchema
    || w.taskText(a) != w.taskText(b)
  }

  // The documentation says a changed request never reuses a key. It does reuse
  // it exactly when the change is to what the key does not cover.
  lemma ChangedRequestSameKey(digest: string -> string, w: World, a: Intent, b: Intent)
    requires DigestSized(digest) && Apart(digest, a, b) && PlainNumbers(a) && PlainNumbers(b)
    ensures IdempotencyKey(digest, a) == IdempotencyKey(digest, b)
        && BuildCreateRequest(w, a) != BuildCreateRequest(w, b)
       <==> SameIdentity(a, b) && DifferBeyondKey(w, a, b)
  {
    SameKeyIff(digest, a, b);
  }

  // So any other result schema makes another request under the same key.
  lemma NewSchemaSameKey(digest: string -> string, w: World, v: Intent, schema: Json)
    requires v.resultSchema != Some(schema)
    ensures var changed := v.(resultSchema := Some(schema));
      && IdempotencyKey(digest, changed) == IdempotencyKey(digest, v)
      && BuildCreateRequest(w, changed) != BuildCreateRequest(w, v)
  {
    assert Phones(v.(resultSchema := Some(schema))) == Phones(v);
  }

  // ---------------------------------------------------------------- the system

  datatype Attempt = Attempt(key: Key, body: Bytes)

  datatype Task = Task(id: TaskId, body: Bytes)

  // What the system remembers, by intent: the persisted runs, this process's
  // memory of its creates, the replies it still expects, and those it has and did
  // not persist yet; every request ever put on the wire; the service, as a map
  // from key to first accepted request; and what was ever returned.
  datatype State = State(
    intents: map<Id, Intent>,
    runs: map<Id, TaskId>,
    attempted: map<Id, Attempt>,
    waiting: map<Id, Key>,
    holding: map<Id, TaskId>,
    sent: set<Attempt>,
    remote: map<Key, Task>,
    transmissions: nat,
    returned: set<(Id, TaskId)>)

  // Arrive: a sent request reaches the service and is accepted. Answer: its reply
  // reaches the process. GiveUp: the reply is lost, or an error.
  datatype Step =
    | Edit(intent: Intent)
    | Create(i: Id)
    | Reconcile(i: Id)
    | Arrive(request: Attempt)
    | Answer(i: Id)
    | GiveUp(i: Id)
    | Persist(i: Id)
    | Restart

  function Initial(): State {
    State(map[], map[], map[], map[], map[], {}, map[], 0, {})
  }

  predicate Enabled(s: State, step: Step) {
    match step
    case Edit(v) => true
    case Create(i) => i in s.intents && i !in s.runs && i !in s.holding
    case Reconcile(i) => i in s.intents
    case Arrive(request) => request in s.sent
    case Answer(i) => i in s.waiting && s.waiting[i] in s.remote
    case GiveUp(i) => i in s.waiting
    case Persist(i) => i in s.holding
    case Restart => true
  }

  function Transmit(s: State, i: Id, request: Attempt): State {
    s.(sent := s.sent + {request}, waiting := s.waiting[i := request.key], transmissions := s.transmissions + 1)
  }

  // Whether reconcile replays: nothing stored, and the recorded attempt is what
  // the intent would send now.
  predicate Replays(w: World, s: State, i: Id)
    requires i in s.intents
  {
    i !in s.runs && i in s.attempted && s.attempted[i] == Attempt(w.key(s.intents[i]), BytesOf(w, s.intents[i]))
  }

  function After(w: World, s: State, step: Step): State
    requires Enabled(s, step)
  {
    match step
    case Edit(v) => s.(intents := s.intents[v.id := v])
    case Create(i) =>
      var request := Attempt(w.key(s.intents[i]), BytesOf(w, s.intents[i]));
      Transmit(s.(attempted := s.attempted[i := request]), i, request)
    case Reconcile(i) =>
      if i in s.runs then s.(returned := s.returned + {(i, s.runs[i])})
      else if Replays(w, s, i) then Transmit(s, i, s.attempted[i])
      else s
    case Arrive(request) =>
      if request.key in s.remote then s else s.(remote := s.remote[request.key := Task(|s.remote|, request.body)])
    case Answer(i) =>
      var task := s.remote[s.waiting[i]].id;
      s.(waiting := s.waiting - {i}, holding := s.holding[i := task], returned := s.returned + {(i, task)})
    case GiveUp(i) => s.(waiting := s.waiting - {i})
    case Persist(i) => s.(runs := s.runs[i := s.holding[i]], holding := s.holding - {i})
    case Restart => s.(attempted := map[], waiting := map[], holding := map[])
  }

  function Exec(w: World, steps: seq<Step>): State {
    if steps == [] then Initial() else
      var s := Exec(w, steps[..|steps| - 1]);
      var step := steps[|steps| - 1];
      if Enabled(s, step) then After(w, s, step) else s
  }

  // ---------------------------------------------------------------- every run

  // A request on the wire for intent i.
  ghost predicate SentFor(s: State, i: Id, request: Attempt) {
    request in s.sent && NamesIntent(request.key, i)
  }

  // A task the service holds for intent i.
  ghost predicate HeldFor(s: State, i: Id, t: TaskId) {
    exists k :: k in s.remote && NamesIntent(k, i) && s.remote[k].id == t
  }

  ghost predicate IdsMatch(s: State) {
    forall i :: i in s.intents ==> s.intents[i].id == i
  }

  // Everything on the wire names its intent, and the service holds only what was sent.
  ghost predicate WireOk(s: State) {
    && IdsMatch(s)
    && (forall i :: i in s.attempted ==> SentFor(s, i, s.attempted[i]))
    && (forall i :: i in s.waiting ==> NamesIntent(s.waiting[i], i))
    && (forall k :: k in s.remote ==> Attempt(k, s.remote[k].body) in s.sent)
  }

  // Every run kept or returned is a task the service holds for that intent.
  ghost predicate RunsOk(s: State) {
    && (forall i :: i in s.holding ==> HeldFor(s, i, s.holding[i]))
    && (forall i :: i in s.runs ==> HeldFor(s, i, s.runs[i]))
    && (forall pair :: pair in s.returned ==> HeldFor(s, pair.0, pair.1))
  }

  ghost predicate Inv(s: State) {
    WireOk(s) && RunsOk(s)
  }

  lemma HeldStays(w: World, s: State, step: Step, i: Id, t: TaskId)
    requires Enabled(s, step) && HeldFor(s, i, t)
    ensures HeldFor(After(w, s, step), i, t)
  {
    var k :| k in s.remote && NamesIntent(k, i) && s.remote[k].id == t;
    assert k in After(w, s, step).remote && After(w, s, step).remote[k] == s.remote[k];
  }

  lemma StepWire(w: World, s: State, step: Step)
    requires KeysNameIntents(w) && WireOk(s) && Enabled(s, step)
    ensures WireOk(After(w, s, step))
  {
    if step.Create? {
    }
  }

  lemma AnswerHeld(s: State, i: Id)
    requires WireOk(s) && i in s.waiting && s.waiting[i] in s.remote
    ensures HeldFor(s, i, s.remote[s.waiting[i]].id)
  {
  }

  // Where the tasks kept after a step come from.
  lemma KeptTask(w: World, s: State, step: Step, i: Id)
    requires Inv(s) && Enabled(s, step)
    ensures i in After(w, s, step).holding ==> HeldFor(s, i, After(w, s, step).holding[i])
    ensures i in After(w, s, step).runs ==> HeldFor(s, i, After(w, s, step).runs[i])
  {
    if step.Answer? {
      AnswerHeld(s, step.i);
    }
  }

  lemma ReturnedTask(w: World, s: State, step: Step, i: Id, t: TaskId)
    requires Inv(s) && Enabled(s, step) && (i, t) in After(w, s, step).returned
    ensures HeldFor(s, i, t)
  {
    if step.Answer? {
      AnswerHeld(s, step.i);
    }
    if (i, t) in s.returned {
      assert HeldFor(s, (i, t).0, (i, t).1);
    }
  }

  lemma StepRuns(w: World, s: State, step: Step)
    requires Inv(s) && Enabled(s, step)
    ensures RunsOk(After(w, s, step))
  {
    var r := After(w, s, step);
    forall i | i in r.holding
      ensures HeldFor(r, i, r.holding[i])
    {
      KeptTask(w, s, step, i);
      HeldStays(w, s, step, i, r.holding[i]);
    }
    forall i | i in r.runs
      ensures HeldFor(r, i, r.runs[i])
    {
      KeptTask(w, s, step, i);
      HeldStays(w, s, step, i, r.runs[i]);
    }
    forall pair | pair in r.returned
      ensures HeldFor(r, pair.0, pair.1)
    {
      ReturnedTask(w, s, step, pair.0, pair.1);
      HeldStays(w, s, step, pair.0, pair.1);
    }
  }

  lemma StepInv(w: World, s: State, step: Step)
    requires KeysNameIntents(w) && Inv(s) && Enabled(s, step)
    ensures Inv(After(w, s, step))
  {
    StepWire(w, s, step);
    StepRuns(w, s, step);
  }

  lemma {:induction false} ExecInv(w: World, steps: seq<Step>)
    requires KeysNameIntents(w)
    ensures Inv(Exec(w, steps))
  {
    if steps != [] {
      ExecInv(w, steps[..|steps| - 1]);
      var s := Exec(w, steps[..|steps| - 1]);
      if Enabled(s, steps[|steps| - 1]) {
        StepInv(w, s, steps[|steps| - 1]);
      }
    }
  }

  // ---------------------------------------------------------------- reconcile never starts a call

  // Whatever reconcile does, no new request exists afterwards; if it transmits
  // at all, it repeats a request that a create sent, for the intent as it is.
  lemma ReconcileOnlyReplays(w: World, steps: seq<Step>, i: Id)
    requires KeysNameIntents(w) && Enabled(Exec(w, steps), Reconcile(i))
    ensures var s := Exec(w, steps); var r := After(w, s, Reconcile(i));
      && r.sent == s.sent && r.remote == s.remote
      && (r.transmissions > s.transmissions ==>
            i !in s.runs && Attempt(w.key(s.intents[i]), BytesOf(w, s.intents[i])) in s.sent)
  {
    ExecInv(w, steps);
  }

  // An intent that never got as far as a create: nothing of it is ever on the
  // wire, at the service, or returned, however often it is reconciled.
  predicate Creates(step: Step, i: Id) {
    step == Create(i)
  }

  ghost predicate Untouched(s: State, i: Id) {
    && i !in s.attempted && i !in s.waiting && i !in s.holding && i !in s.runs
    && (forall request :: request in s.sent ==> !NamesIntent(request.key, i))
    && (forall k :: k in s.remote ==> !NamesIntent(k, i))
    && (forall t :: (i, t) !in s.returned)
  }

  lemma CreateUntouched(w: World, s: State, other: Id, i: Id)
    requires KeysNameIntents(w) && Inv(s) && Enabled(s, Create(other)) && Untouched(s, i) && other != i
    ensures Untouched(After(w, s, Create(other)), i)
  {
    var v := s.intents[other];
    assert NamesIntent(w.key(v), v.id);
    if NamesIntent(w.key(v), i) {
      KeyNamesOneIntent(w.key(v), v.id, i);
    }
  }

  lemma StepUntouched(w: World, s: State, step: Step, i: Id)
    requires KeysNameIntents(w) && Inv(s) && Enabled(s, step) && Untouched(s, i) && !Creates(step, i)
    ensures Untouched(After(w, s, step), i)
  {
    match step
    case Create(other) => CreateUntouched(w, s, other, i);
    case Reconcile(other) =>
      if other in s.attempted {
        assert SentFor(s, other, s.attempted[other]);
        assert s.sent + {s.attempted[other]} == s.sent;
      }
    case _ =>
  }

  lemma {:induction false} NoCreateNoCall(w: World, steps: seq<Step>, i: Id)
    requires KeysNameIntents(w) && forall step :: step in steps ==> !Creates(step, i)
    ensures Untouched(Exec(w, steps), i)
  {
    if steps != [] {
      var rest := steps[..|steps| - 1];
      NoCreateNoCall(w, rest, i);
      ExecInv(w, rest);
      assert steps[|steps| - 1] in steps;
      if Enabled(Exec(w, rest), steps[|steps| - 1]) {
        StepUntouched(w, Exec(w, rest), steps[|steps| - 1], i);
      }
    }
  }

  // ---------------------------------------------------------------- one task for an unchanged intent

  predicate Changes(step: Step, v: Intent) {
    step.Edit? && step.intent.id == v.id && step.intent != v
  }

  function RequestOf(w: World, v: Intent): Attempt {
    Attempt(w.key(v), BytesOf(w, v))
  }

  // Everything about the intent concerns the one request it stands for.
  ghost predicate OneRequest(w: World, s: State, v: Intent) {
    && (v.id in s.intents ==> s.intents[v.id] == v)
    && (forall request :: SentFor(s, v.id, request) ==> request == RequestOf(w, v))
    && (v.id in s.waiting ==> s.waiting[v.id] == w.key(v))
  }

  lemma CreateOneRequest(w: World, s: State, i: Id, v: Intent)
    requires KeysNameIntents(w) && Inv(s) && Enabled(s, Create(i)) && OneRequest(w, s, v)
    ensures OneRequest(w, After(w, s, Create(i)), v)
  {
    var made := RequestOf(w, s.intents[i]);
    if NamesIntent(made.key, v.id) {
      KeyNamesOneIntent(made.key, i, v.id);
      assert made == RequestOf(w, v);
    }
    assert After(w, s, Create(i)).sent == s.sent + {made};
    forall request | SentFor(After(w, s, Create(i)), v.id, request)
      ensures request == RequestOf(w, v)
    {
      assert request == made || SentFor(s, v.id, request);
    }
  }

  lemma ReconcileOneRequest(w: World, s: State, i: Id, v: Intent)
    requires Inv(s) && Enabled(s, Reconcile(i)) && OneRequest(w, s, v)
    ensures OneRequest(w, After(w, s, Reconcile(i)), v)
  {
    if i in s.attempted {
      assert SentFor(s, i, s.attempted[i]);
      assert s.sent + {s.attempted[i]} == s.sent;
    }
    SameRequests(w, s, After(w, s, Reconcile(i)), v);
  }

  lemma SameRequests(w: World, s: State, r: State, v: Intent)
    requires OneRequest(w, s, v) && r.sent == s.sent
    requires v.id in r.intents ==> r.intents[v.id] == v
    requires v.id in r.waiting ==> r.waiting[v.id] == w.key(v)
    ensures OneRequest(w, r, v)
  {
    assert forall request :: SentFor(r, v.id, request) ==> SentFor(s, v.id, request);
  }

  lemma StepOneRequest(w: World, s: State, step: Step, v: Intent)
    requires KeysNameIntents(w) && Inv(s) && Enabled(s, step) && OneRequest(w, s, v) && !Changes(step, v)
    ensures OneRequest(w, After(w, s, step), v)
  {
    match step
    case Create(i) => CreateOneRequest(w, s, i, v);
    case Reconcile(i) => ReconcileOneRequest(w, s, i, v);
    case _ => SameRequests(w, s, After(w, s, step), v);
  }

  lemma {:induction false} ExecOneRequest(w: World, steps: seq<Step>, v: Intent)
    requires KeysNameIntents(w) && forall step :: step in steps ==> !Changes(step, v)
    ensures OneRequest(w, Exec(w, steps), v)
  {
    if steps != [] {
      var rest := steps[..|steps| - 1];
      ExecOneRequest(w, rest, v);
      ExecInv(w, rest);
      assert steps[|steps| - 1] in steps;
      if Enabled(Exec(w, rest), steps[|steps| - 1]) {
        StepOneRequest(w, Exec(w, rest), steps[|steps| - 1], v);
      }
    }
  }

  // After any mix of creates, reconciles, lost, late and repeated messages and
  // restarts, the service holds at most one task for an intent that was not
  // edited, and every run ever stored or returned for it is that task.
  lemma OneTaskPerIntent(w: World, steps: seq<Step>, v: Intent)
    requires KeysNameIntents(w) && forall step :: step in steps ==> !Changes(step, v)
    ensures var s := Exec(w, steps);
      && (forall k :: k in s.remote && NamesIntent(k, v.id) ==> k == w.key(v) && s.remote[k].body == BytesOf(w, v))
      && (forall t :: (v.id, t) in s.returned ==> w.key(v) in s.remote && t == s.remote[w.key(v)].id)
      && (v.id in s.runs ==> w.key(v) in s.remote && s.runs[v.id] == s.remote[w.key(v)].id)
  {
    ExecInv(w, steps);
    ExecOneRequest(w, steps, v);
    var s := Exec(w, steps);
    forall k | k in s.remote && NamesIntent(k, v.id)
      ensures k == w.key(v) && s.remote[k].body == BytesOf(w, v)
    {
      assert SentFor(s, v.id, Attempt(k, s.remote[k].body));
    }
    forall t | HeldFor(s, v.id, t)
      ensures w.key(v) in s.remote && t == s.remote[w.key(v)].id
    {
    }
    forall t | (v.id, t) in s.returned
      ensures HeldFor(s, v.id, t)
    {
      assert HeldFor(s, (v.id, t).0, (v.id, t).1);
    }
  }

  // ---------------------------------------------------------------- the provider

  datatype Reconciled = Reread(task: TaskId) | NothingAttempted | IntentChanged | Replayed(key: Key)

  // One process: what it attempted, and every request it put on the wire.
  class CalleProvider {
    var attempted: map<Id, Attempt>
    var wire: seq<Attempt>
    ghost var created: set<Attempt>
    const w: World

    // Whatever was sent, a create sent it first.
    ghost predicate Valid()
      reads this
    {
      && (forall request :: request in wire ==> request in created)
      && (forall i :: i in attempted ==> attempted[i] in created)
    }

    constructor (w: World)
      ensures Valid() && attempted == map[] && wire == [] && created == {} && this.w == w
    {
      attempted, wire, created := map[], [], {};
      this.w := w;
    }

    // Recorded first, then sent, once.
    method ExecuteAuthorized(v: Intent) returns (key: Key)
      requires Valid()
      modifies this
      ensures Valid() && key == w.key(v)
      ensures attempted == old(attempted)[v.id := RequestOf(w, v)]
      ensures wire == old(wire) + [RequestOf(w, v)] && created == old(created) + {RequestOf(w, v)}
    {
      var request := Attempt(w.key(v), BytesOf(w, v));
      attempted := attempted[v.id := request];
      created := created + {request};
      wire := wire + [request];
      key := request.key;
    }

    // With a stored run: read it again. Otherwise replay the recorded attempt,
    // byte for byte, or refuse. Nothing is ever created here.
    method Reconcile(v: Intent, stored: seq<TaskId>) returns (r: Reconciled)
      requires Valid()
      modifies this`wire
      ensures Valid() && attempted == old(attempted) && created == old(created)
      ensures r.Reread? <==> stored != []
      ensures r.Reread? ==> r.task == stored[0]
      ensures r.NothingAttempted? <==> stored == [] && v.id !in attempted
      ensures r.Replayed? <==> stored == [] && v.id in attempted && attempted[v.id] == RequestOf(w, v)
      ensures wire == if r.Replayed? then old(wire) + [RequestOf(w, v)] else old(wire)
      ensures r.Replayed? ==> r.key == w.key(v) && RequestOf(w, v) in created
    {
      if stored != [] {
        return Reread(stored[0]);
      }
      if v.id !in attempted {
        return NothingAttempted;
      }
      var attempt := attempted[v.id];
      if w.key(v) != attempt.key || BytesOf(w, v) != attempt.body {
        return IntentChanged;
      }
      wire := wire + [attempt];
      r := Replayed(attempt.key);
    }
  }
}
