// The swarm scheduler as a step system: one loop that launches, reaps and
// blocks, running against agent tasks and orchestrator stops that may act
// between any two of its steps.
module Scheduler {
  import opened Models
  import opened Ordering
  import opened Graph

  // Where the loop is between two awaits: in asyncio.wait, about to mark todo[0]
  // READY, about to launch it, or with dependents of a failed agent still to visit.
  datatype Phase =
    | Waiting
    | Readying(todo: seq<Id>)
    | Launching(todo: seq<Id>)
    | Blocking(pending: set<Id>)

  // Tasks are live until they end and ended until the loop takes them; `reaped`
  // keeps the status each task had when the loop took it.
  datatype Swarm = Swarm(
    status: map<Id, AgentState>,
    live: set<Id>,
    ended: set<Id>,
    completed: set<Id>,
    finished: set<Id>,
    phase: Phase,
    reaped: map<Id, AgentState>)
  {
    function Launched(): set<Id> {
      live + ended + reaped.Keys
    }
  }

  // Work is a transition of an agent by its own task, Stop the stop_agent of the
  // orchestrator.
  datatype Step =
    | Work(agent: Id, to: AgentState)
    | EndTask(agent: Id)
    | Stop(agent: Id)
    | Reap(agent: Id)
    | MarkReady
    | Launch
    | Block(agent: Id)

  // A terminal run is never overwritten.
  predicate Terminal(st: AgentState) {
    st == COMPLETE || st == FAILED || st == STOPPED || st == BLOCKED
  }

  // What a task that has just ended can have left behind.
  predicate Final(st: AgentState) {
    st == COMPLETE || st == FAILED || st == STOPPED || st == WAITING_FOR_CALL
  }

  predicate Failure(st: AgentState) {
    st == FAILED || st == STOPPED || st == BLOCKED
  }

  // The transitions `_execute` and `_guarded_run` make.
  predicate TaskTransition(from: AgentState, to: AgentState) {
    || (from == READY && (to == WORKING || to == FAILED))
    || (from == WORKING && (to == COMPLETE || to == FAILED || to == WAITING_FOR_CALL))
  }

  // A graph the strict construction returned.
  ghost predicate StrictGraph(g: DependencyGraph) {
    && Distinct(g.nodes)
    && g.edges.Keys == Elements(g.nodes)
    && (forall n :: n in g.edges ==> g.edges[n] <= Elements(g.nodes))
    && Acyclic(g.edges)
  }

  // Every transitive dependent.
  ghost function DownstreamOf(g: DependencyGraph, n: Id): set<Id> {
    set x | x in g.nodes && Reaches(g.edges, x, n)
  }

  function Start(g: DependencyGraph): Swarm {
    Swarm(map n | n in g.nodes :: if Deps(g.edges, n) == {} then READY else WAITING_FOR_DEPENDENCY,
          Elements(Ready(g, {}, {})), {}, {}, {}, Waiting, map[])
  }

  predicate Enabled(s: Swarm, step: Step) {
    match step
    case Work(i, to) => i in s.live && i in s.status && TaskTransition(s.status[i], to)
    case EndTask(i) => i in s.live && i in s.status && Final(s.status[i])
    case Stop(i) => i in s.status && !Terminal(s.status[i])
    case Reap(i) => s.phase == Waiting && i in s.ended && i in s.status
    case MarkReady => s.phase.Readying? && s.phase.todo != [] && s.phase.todo[0] in s.status
    case Launch => s.phase.Launching? && s.phase.todo != []
    case Block(i) => s.phase.Blocking? && i in s.phase.pending && i in s.status
  }

  function AfterLaunch(todo: seq<Id>): Phase {
    if todo == [] then Waiting else Readying(todo)
  }

  function AfterBlock(todo: set<Id>): Phase {
    if todo == {} then Waiting else Blocking(todo)
  }

  ghost function Apply(g: DependencyGraph, s: Swarm, step: Step): Swarm
    requires Enabled(s, step)
  {
    match step
    case Work(i, to) => s.(status := s.status[i := to])
    case EndTask(i) => s.(live := s.live - {i}, ended := s.ended + {i})
    case Stop(i) => s.(status := s.status[i := STOPPED])
    case Reap(i) =>
      var t := s.(ended := s.ended - {i}, finished := s.finished + {i}, reaped := s.reaped[i := s.status[i]]);
      if s.status[i] == COMPLETE then
        var done := s.completed + {i};
        t.(completed := done, phase := AfterLaunch(Ready(g, done, t.finished + t.live + t.ended)))
      else if Failure(s.status[i]) then
        t.(phase := AfterBlock(DownstreamOf(g, i)))
      else t
    case MarkReady =>
      var i := s.phase.todo[0];
      s.(status := if s.status[i] == WAITING_FOR_DEPENDENCY then s.status[i := READY] else s.status,
         phase := Launching(s.phase.todo))
    case Launch => s.(live := s.live + {s.phase.todo[0]}, phase := AfterLaunch(s.phase.todo[1..]))
    case Block(i) =>
      if s.status[i] == WAITING_FOR_DEPENDENCY then
        s.(status := s.status[i := BLOCKED], finished := s.finished + {i}, phase := AfterBlock(s.phase.pending - {i}))
      else s.(phase := AfterBlock(s.phase.pending - {i}))
  }

  // ---------------------------------------------------------------- invariant

  ghost function Todo(s: Swarm): set<Id> {
    if s.phase.Readying? || s.phase.Launching? then Elements(s.phase.todo) else {}
  }

  ghost predicate Shape(g: DependencyGraph, s: Swarm) {
    && s.status.Keys == Elements(g.nodes)
    && s.Launched() <= Elements(g.nodes)
    && s.live !! s.ended && s.live !! s.reaped.Keys && s.ended !! s.reaped.Keys
    && (s.phase.Readying? || s.phase.Launching? ==> s.phase.todo != [] && Distinct(s.phase.todo))
    && Todo(s) <= Elements(g.nodes) && Todo(s) !! s.Launched()
    && (s.phase.Launching? ==> s.status[s.phase.todo[0]] == READY || s.status[s.phase.todo[0]] == STOPPED)
    && (s.phase.Blocking? ==> s.phase.pending != {} && s.phase.pending <= Elements(g.nodes))
    && s.finished <= Elements(g.nodes)
    && (forall i :: i in s.completed <==> i in s.reaped && s.reaped[i] == COMPLETE)
  }

  ghost predicate Spoiled(reaped: map<Id, AgentState>, d: Id) {
    d in reaped && Failure(reaped[d])
  }

  // Some transitive dependency was failed or stopped when the loop took it.
  ghost predicate BelowSpoiled(g: DependencyGraph, reaped: map<Id, AgentState>, i: Id) {
    exists d :: Reaches(g.edges, i, d) && Spoiled(reaped, d)
  }

  ghost predicate Pending(s: Swarm, i: Id) {
    s.phase.Blocking? && i in s.phase.pending
  }

  ghost predicate Idle(s: Swarm, i: Id) {
    i !in s.live && i !in s.ended && i !in s.reaped && i !in Todo(s)
  }

  // An agent is launched, or about to be, exactly when every dependency is
  // completed; otherwise it waits, or is blocked exactly below a failure.
  ghost predicate AgentOk(g: DependencyGraph, s: Swarm, i: Id)
    requires i in s.status
  {
    var st := s.status[i];
    && (i in s.live ==> st == READY || st == WORKING || Final(st))
    && (i in s.ended ==> Final(st))
    && (i in s.reaped ==>
          && Final(s.reaped[i]) && i in s.finished
          && (st == s.reaped[i] || (s.reaped[i] == WAITING_FOR_CALL && st == STOPPED)))
    && (i in Todo(s) ==> st == WAITING_FOR_DEPENDENCY || st == READY || st == STOPPED)
    && (Idle(s, i) <==> !(Deps(g.edges, i) <= s.completed))
    && (Idle(s, i) ==> st == WAITING_FOR_DEPENDENCY || st == BLOCKED || st == STOPPED)
    && (Idle(s, i) && st == BLOCKED ==> BelowSpoiled(g, s.reaped, i))
    && (Idle(s, i) && BelowSpoiled(g, s.reaped, i) ==> st == BLOCKED || st == STOPPED || Pending(s, i))
    && (Pending(s, i) ==> Idle(s, i) && BelowSpoiled(g, s.reaped, i))
    && (i in s.finished ==> i in s.reaped || (Idle(s, i) && st == BLOCKED))
  }

  ghost predicate Inv(g: DependencyGraph, s: Swarm) {
    Shape(g, s) && forall i :: i in s.status ==> AgentOk(g, s, i)
  }

  // Completed agents' dependencies are completed, all the way up.
  lemma {:induction false} UpstreamComplete(g: DependencyGraph, s: Swarm, i: Id, d: Id, k: nat)
    requires Inv(g, s) && i in s.status
    requires Deps(g.edges, i) <= s.completed && k > 0 && ReachesIn(g.edges, i, d, k)
    ensures d in s.completed
    decreases k
  {
    var c :| c in Deps(g.edges, i) && ReachesIn(g.edges, c, d, k - 1);
    if k > 1 {
      assert AgentOk(g, s, c) && !Idle(s, c);
      UpstreamComplete(g, s, c, d, k - 1);
    }
  }

  // At the moment an agent is launched or running, everything above it is COMPLETE.
  lemma LaunchedUpstream(g: DependencyGraph, s: Swarm, i: Id, d: Id)
    requires Inv(g, s) && i in s.status && !Idle(s, i) && Reaches(g.edges, i, d)
    ensures d in s.completed && d in s.status && s.status[d] == COMPLETE
  {
    assert AgentOk(g, s, i);
    var k: nat :| k > 0 && ReachesIn(g.edges, i, d, k);
    UpstreamComplete(g, s, i, d, k);
    assert AgentOk(g, s, d);
  }

  lemma StartInv(g: DependencyGraph)
    requires StrictGraph(g)
    ensures Inv(g, Start(g))
  {
    var s := Start(g);
    forall i | i in s.status
      ensures AgentOk(g, s, i)
    {
      assert i in s.live <==> Deps(g.edges, i) == {};
    }
  }

  lemma WorkInv(g: DependencyGraph, s: Swarm, i: Id, to: AgentState)
    requires StrictGraph(g) && Inv(g, s) && Enabled(s, Work(i, to))
    ensures Inv(g, Apply(g, s, Work(i, to)))
  {
    var t := Apply(g, s, Work(i, to));
    assert AgentOk(g, s, i);
    forall x | x in t.status
      ensures AgentOk(g, t, x)
    {
      assert AgentOk(g, s, x);
    }
  }

  lemma EndInv(g: DependencyGraph, s: Swarm, i: Id)
    requires StrictGraph(g) && Inv(g, s) && Enabled(s, EndTask(i))
    ensures Inv(g, Apply(g, s, EndTask(i)))
  {
    var t := Apply(g, s, EndTask(i));
    assert t.Launched() == s.Launched();
    forall x | x in t.status
      ensures AgentOk(g, t, x)
    {
      assert AgentOk(g, s, x);
    }
  }

  lemma StopInv(g: DependencyGraph, s: Swarm, i: Id)
    requires StrictGraph(g) && Inv(g, s) && Enabled(s, Stop(i))
    ensures Inv(g, Apply(g, s, Stop(i)))
  {
    var t := Apply(g, s, Stop(i));
    forall x | x in t.status
      ensures AgentOk(g, t, x)
    {
      assert AgentOk(g, s, x);
    }
  }

  lemma MarkReadyInv(g: DependencyGraph, s: Swarm)
    requires StrictGraph(g) && Inv(g, s) && Enabled(s, MarkReady)
    ensures Inv(g, Apply(g, s, MarkReady))
  {
    var t := Apply(g, s, MarkReady);
    assert AgentOk(g, s, s.phase.todo[0]);
    assert s.phase.todo[0] in Todo(s) && Todo(t) == Todo(s);
    forall x | x in t.status
      ensures AgentOk(g, t, x)
    {
      assert AgentOk(g, s, x);
    }
  }

  lemma LaunchSets(g: DependencyGraph, s: Swarm)
    requires Shape(g, s) && Enabled(s, Launch)
    ensures var i := s.phase.todo[0]; var t := Apply(g, s, Launch);
      i in Todo(s) && Todo(t) == Todo(s) - {i} && t.Launched() == s.Launched() + {i}
  {
    var i, rest := s.phase.todo[0], s.phase.todo[1..];
    assert s.phase.todo == [i] + rest;
    assert i !in rest;
    assert Todo(Apply(g, s, Launch)) == Elements(rest);
  }

  lemma LaunchAgent(g: DependencyGraph, s: Swarm, x: Id)
    requires Inv(g, s) && Enabled(s, Launch) && x in s.status
    ensures AgentOk(g, Apply(g, s, Launch), x)
  {
    LaunchSets(g, s);
    assert AgentOk(g, s, x);
  }

  // An agent is launched at most once, and only below COMPLETE agents.
  lemma LaunchInv(g: DependencyGraph, s: Swarm)
    requires StrictGraph(g) && Inv(g, s) && Enabled(s, Launch)
    ensures var i := s.phase.todo[0];
      && i !in s.Launched() && i in s.status
      && forall d :: Reaches(g.edges, i, d) ==> d in s.status && s.status[d] == COMPLETE
    ensures Inv(g, Apply(g, s, Launch))
  {
    var t := Apply(g, s, Launch);
    var i := s.phase.todo[0];
    LaunchSets(g, s);
    forall x | x in t.status
      ensures AgentOk(g, t, x)
    {
      LaunchAgent(g, s, x);
    }
    assert AgentOk(g, s, i);
    forall d | Reaches(g.edges, i, d)
      ensures d in s.status && s.status[d] == COMPLETE
    {
      LaunchedUpstream(g, s, i, d);
    }
  }

  lemma BlockShape(g: DependencyGraph, s: Swarm, i: Id)
    requires Shape(g, s) && Enabled(s, Block(i))
    ensures Shape(g, Apply(g, s, Block(i)))
  {
    assert Apply(g, s, Block(i)).Launched() == s.Launched();
  }

  lemma BlockInv(g: DependencyGraph, s: Swarm, i: Id)
    requires StrictGraph(g) && Inv(g, s) && Enabled(s, Block(i))
    ensures Inv(g, Apply(g, s, Block(i)))
  {
    BlockShape(g, s, i);
    forall x | x in s.status
      ensures AgentOk(g, Apply(g, s, Block(i)), x)
    {
      assert AgentOk(g, s, i) && AgentOk(g, s, x);
      BlockAgent(g, s, i, x);
    }
  }

  lemma BlockAgent(g: DependencyGraph, s: Swarm, i: Id, x: Id)
    requires Enabled(s, Block(i)) && x in s.status && AgentOk(g, s, i) && AgentOk(g, s, x)
    ensures AgentOk(g, Apply(g, s, Block(i)), x)
  {
    var t := Apply(g, s, Block(i));
    assert Pending(t, x) <==> Pending(s, x) && x != i;
    assert Idle(t, x) <==> Idle(s, x);
  }

  // ---------------------------------------------------------------- taking an ended task

  lemma ReapInv(g: DependencyGraph, s: Swarm, i: Id)
    requires StrictGraph(g) && Inv(g, s) && Enabled(s, Reap(i))
    ensures Inv(g, Apply(g, s, Reap(i)))
  {
    assert AgentOk(g, s, i);
    if s.status[i] == COMPLETE {
      ReapComplete(g, s, i);
    } else if s.status[i] == WAITING_FOR_CALL {
      ReapPaused(g, s, i);
    } else {
      ReapSpoiled(g, s, i);
    }
  }

  lemma SameSpoiled(g: DependencyGraph, r: map<Id, AgentState>, q: map<Id, AgentState>, x: Id)
    requires forall d :: Spoiled(r, d) <==> Spoiled(q, d)
    ensures BelowSpoiled(g, r, x) <==> BelowSpoiled(g, q, x)
  {
  }

  lemma ReapPaused(g: DependencyGraph, s: Swarm, i: Id)
    requires StrictGraph(g) && Inv(g, s) && Enabled(s, Reap(i)) && s.status[i] == WAITING_FOR_CALL
    ensures Inv(g, Apply(g, s, Reap(i)))
  {
    var t := Apply(g, s, Reap(i));
    assert t.Launched() == s.Launched();
    forall x | x in t.status
      ensures AgentOk(g, t, x)
    {
      ReapPausedAgent(g, s, i, x);
    }
  }

  lemma ReapPausedAgent(g: DependencyGraph, s: Swarm, i: Id, x: Id)
    requires Inv(g, s) && Enabled(s, Reap(i)) && s.status[i] == WAITING_FOR_CALL && x in s.status
    ensures AgentOk(g, Apply(g, s, Reap(i)), x)
  {
    var t := Apply(g, s, Reap(i));
    assert AgentOk(g, s, i) && AgentOk(g, s, x);
    SameSpoiled(g, s.reaped, t.reaped, x);
    assert !Pending(t, x) && !Pending(s, x);
    assert Idle(t, x) <==> Idle(s, x);
  }

  lemma ReapComplete(g: DependencyGraph, s: Swarm, i: Id)
    requires StrictGraph(g) && Inv(g, s) && Enabled(s, Reap(i)) && s.status[i] == COMPLETE
    ensures Inv(g, Apply(g, s, Reap(i)))
  {
    var t := Apply(g, s, Reap(i));
    assert AgentOk(g, s, i);
    assert t.Launched() == s.Launched();
    ReadyAfter(g, s, i);
    forall x | x in t.status
      ensures AgentOk(g, t, x)
    {
      ReapCompleteAgent(g, s, i, x);
    }
  }

  lemma ReadyAfter(g: DependencyGraph, s: Swarm, i: Id)
    requires Distinct(g.nodes) && Enabled(s, Reap(i)) && s.status[i] == COMPLETE
    ensures var t := Apply(g, s, Reap(i));
      && (forall x :: x in Todo(t) <==> x in g.nodes && x !in t.finished && x !in t.live && x !in t.ended
                                        && x !in t.completed && Deps(g.edges, x) <= t.completed)
      && (t.phase == Waiting || (t.phase.Readying? && t.phase.todo != [] && Distinct(t.phase.todo)))
  {
    var t := Apply(g, s, Reap(i));
    var p := n => n !in t.finished + t.live + t.ended && n !in t.completed && Deps(g.edges, n) <= t.completed;
    FilterDistinct(g.nodes, p);
    FilterSame(g.nodes, p, n => n !in t.finished + t.live + t.ended && n !in t.completed
        && Deps(g.edges, n) <= t.completed);
  }

  lemma ReapCompleteAgent(g: DependencyGraph, s: Swarm, i: Id, x: Id)
    requires StrictGraph(g) && Inv(g, s) && Enabled(s, Reap(i)) && s.status[i] == COMPLETE && x in s.status
    ensures AgentOk(g, Apply(g, s, Reap(i)), x)
  {
    var t := Apply(g, s, Reap(i));
    assert AgentOk(g, s, i) && AgentOk(g, s, x);
    SameSpoiled(g, s.reaped, t.reaped, x);
    ReadyAfter(g, s, i);
    assert t.completed == s.completed + {i};
    assert !Pending(t, x) && !Pending(s, x);
    if Idle(s, x) && BelowSpoiled(g, s.reaped, x) {
      BelowStaysIdle(g, s, i, x);
    }
  }

  // Completing i cannot release an agent that lies below a failure.
  lemma BelowStaysIdle(g: DependencyGraph, s: Swarm, i: Id, x: Id)
    requires Inv(g, s) && x in s.status && i in s.status && !Idle(s, i) && i !in s.reaped
        && BelowSpoiled(g, s.reaped, x)
    ensures !(Deps(g.edges, x) <= s.completed + {i})
  {
    var d :| Reaches(g.edges, x, d) && Spoiled(s.reaped, d);
    assert d in s.reaped && s.reaped[d] != COMPLETE;
    var c := FirstEdge(g.edges, x, d);
    if c == i {
      if c != d {
        LaunchedUpstream(g, s, i, d);
      }
    } else if c in s.completed && c != d {
      assert c in s.status && AgentOk(g, s, c) && !Idle(s, c);
      LaunchedUpstream(g, s, c, d);
    }
  }

  lemma ReapSpoiled(g: DependencyGraph, s: Swarm, i: Id)
    requires StrictGraph(g) && Inv(g, s) && Enabled(s, Reap(i)) && Failure(s.status[i])
    ensures Inv(g, Apply(g, s, Reap(i)))
  {
    var t := Apply(g, s, Reap(i));
    assert AgentOk(g, s, i);
    assert t.Launched() == s.Launched();
    assert DownstreamOf(g, i) <= Elements(g.nodes);
    forall x | x in t.status
      ensures AgentOk(g, t, x)
    {
      ReapSpoiledAgent(g, s, i, x);
    }
  }

  lemma ReapSpoiledAgent(g: DependencyGraph, s: Swarm, i: Id, x: Id)
    requires StrictGraph(g) && Inv(g, s) && Enabled(s, Reap(i)) && Failure(s.status[i]) && x in s.status
    ensures AgentOk(g, Apply(g, s, Reap(i)), x)
  {
    var t := Apply(g, s, Reap(i));
    assert AgentOk(g, s, i) && AgentOk(g, s, x);
    assert t.completed == s.completed && Todo(t) == Todo(s) == {};
    assert Pending(t, x) <==> Reaches(g.edges, x, i);
    assert Idle(t, x) <==> Idle(s, x);
    assert Spoiled(t.reaped, i);
    assert forall d :: d != i ==> (Spoiled(t.reaped, d) <==> Spoiled(s.reaped, d));
    assert i !in s.reaped;
    assert BelowSpoiled(g, t.reaped, x) <==> BelowSpoiled(g, s.reaped, x) || Reaches(g.edges, x, i);
    if Reaches(g.edges, x, i) && !Idle(s, x) {
      LaunchedUpstream(g, s, x, i);
    }
  }

  // ---------------------------------------------------------------- whole runs

  ghost predicate ValidRun(g: DependencyGraph, s: Swarm, steps: seq<Step>)
    decreases |steps|
  {
    steps == [] || (Enabled(s, steps[0]) && ValidRun(g, Apply(g, s, steps[0]), steps[1..]))
  }

  ghost function After(g: DependencyGraph, s: Swarm, steps: seq<Step>): Swarm
    requires ValidRun(g, s, steps)
    decreases |steps|
  {
    if steps == [] then s else After(g, Apply(g, s, steps[0]), steps[1..])
  }

  lemma StepInv(g: DependencyGraph, s: Swarm, step: Step)
    requires StrictGraph(g) && Inv(g, s) && Enabled(s, step)
    ensures Inv(g, Apply(g, s, step))
  {
    match step
    case Work(i, to) => WorkInv(g, s, i, to);
    case EndTask(i) => EndInv(g, s, i);
    case Stop(i) => StopInv(g, s, i);
    case Reap(i) => ReapInv(g, s, i);
    case MarkReady => MarkReadyInv(g, s);
    case Launch => LaunchInv(g, s);
    case Block(i) => BlockInv(g, s, i);
  }

  lemma {:induction false} RunInv(g: DependencyGraph, s: Swarm, steps: seq<Step>)
    requires StrictGraph(g) && Inv(g, s) && ValidRun(g, s, steps)
    ensures Inv(g, After(g, s, steps))
    decreases |steps|
  {
    if steps != [] {
      StepInv(g, s, steps[0]);
      RunInv(g, Apply(g, s, steps[0]), steps[1..]);
    }
  }

  // Some run of the system leads here.
  ghost predicate Reachable(g: DependencyGraph, s: Swarm) {
    exists steps :: ValidRun(g, Start(g), steps) && After(g, Start(g), steps) == s
  }

  lemma {:induction false} RunSnoc(g: DependencyGraph, s: Swarm, steps: seq<Step>, last: Step)
    requires ValidRun(g, s, steps) && Enabled(After(g, s, steps), last)
    ensures ValidRun(g, s, steps + [last])
    ensures After(g, s, steps + [last]) == Apply(g, After(g, s, steps), last)
    decreases |steps|
  {
    var all := steps + [last];
    if steps == [] {
      assert all[1..] == [];
      assert ValidRun(g, Apply(g, s, last), []);
    } else {
      RunSnoc(g, Apply(g, s, steps[0]), steps[1..], last);
      assert all[1..] == steps[1..] + [last];
    }
  }

  lemma ReachableStep(g: DependencyGraph, s: Swarm, step: Step)
    requires Reachable(g, s) && Enabled(s, step)
    ensures Reachable(g, Apply(g, s, step))
  {
    var steps :| ValidRun(g, Start(g), steps) && After(g, Start(g), steps) == s;
    RunSnoc(g, Start(g), steps, step);
  }

  lemma ReachableStart(g: DependencyGraph)
    ensures Reachable(g, Start(g))
  {
    assert ValidRun(g, Start(g), []);
  }

  lemma ReachableInv(g: DependencyGraph, s: Swarm)
    requires StrictGraph(g) && Reachable(g, s)
    ensures Inv(g, s)
  {
    var steps :| ValidRun(g, Start(g), steps) && After(g, Start(g), steps) == s;
    StartInv(g);
    RunInv(g, Start(g), steps);
  }

  // The loop condition is false: no task is running and none is left to take.
  predicate Exited(s: Swarm) {
    s.phase == Waiting && s.live == {} && s.ended == {}
  }

  // On a DAG a dependency has strictly less above it.
  lemma LessAbove(g: DependencyGraph, i: Id, c: Id)
    requires StrictGraph(g) && c in Deps(g.edges, i)
    ensures |ReachSet(g.edges, Elements(g.nodes), c)| < |ReachSet(g.edges, Elements(g.nodes), i)|
  {
    var nodes := Elements(g.nodes);
    EdgeReaches(g.edges, i, c);
    forall y | Reaches(g.edges, c, y)
      ensures Reaches(g.edges, i, y)
    {
      ReachesTransitive(g.edges, i, c, y);
    }
    SubsetCount(ReachSet(g.edges, nodes, c), ReachSet(g.edges, nodes, i) - {c});
  }

  // The first unmet dependency on the way up from an agent that could not start.
  lemma {:induction false} UnmetDependency(g: DependencyGraph, s: Swarm, i: Id) returns (d: Id)
    requires StrictGraph(g) && Inv(g, s) && Exited(s) && i in s.status && Idle(s, i)
    ensures Reaches(g.edges, i, d) && d in s.reaped && s.reaped[d] != COMPLETE
    decreases |ReachSet(g.edges, Elements(g.nodes), i)|
  {
    assert AgentOk(g, s, i);
    d :| d in Deps(g.edges, i) && d !in s.completed;
    EdgeReaches(g.edges, i, d);
    if d !in s.reaped {
      var c := d;
      LessAbove(g, i, c);
      d := UnmetDependency(g, s, c);
      ReachesTransitive(g.edges, i, c, d);
    }
  }

  // An agent ran exactly when everything above it
  // completed; one that did not run was stopped before it could, or is BLOCKED
  // exactly when something above it was taken failed or stopped, or is
  // WAITING_FOR_DEPENDENCY exactly when nothing was but something above it was
  // left waiting for a call.
  ghost predicate ExitedAs(g: DependencyGraph, s: Swarm, i: Id)
    requires i in s.status
  {
    && (i in s.reaped <==> forall d :: Reaches(g.edges, i, d) ==> d in s.reaped && s.reaped[d] == COMPLETE)
    && (i in s.reaped ==> Final(s.reaped[i]))
    && (i !in s.reaped && s.status[i] != STOPPED ==>
          && (s.status[i] == BLOCKED <==> BelowSpoiled(g, s.reaped, i))
          && (s.status[i] == WAITING_FOR_DEPENDENCY <==>
                !BelowSpoiled(g, s.reaped, i)
                && exists d :: Reaches(g.edges, i, d) && d in s.reaped && s.reaped[d] == WAITING_FOR_CALL))
  }

  lemma ExitedAgent(g: DependencyGraph, s: Swarm, i: Id)
    requires StrictGraph(g) && Inv(g, s) && Exited(s) && i in s.status
    ensures ExitedAs(g, s, i)
  {
    assert AgentOk(g, s, i);
    if Idle(s, i) {
      var d := UnmetDependency(g, s, i);
      assert AgentOk(g, s, d);
    } else {
      forall d | Reaches(g.edges, i, d)
        ensures d in s.reaped && s.reaped[d] == COMPLETE
      {
        LaunchedUpstream(g, s, i, d);
      }
    }
  }

  // The documented reading of the final statuses.
  ghost predicate DocumentedAs(g: DependencyGraph, s: Swarm, i: Id)
    requires i in s.status
  {
    && (s.status[i] == BLOCKED <==>
          exists d :: Reaches(g.edges, i, d) && d in s.status && (s.status[d] == FAILED || s.status[d] == STOPPED))
    && (s.status[i] == WAITING_FOR_DEPENDENCY <==>
          s.status[i] != BLOCKED &&
              exists d :: Reaches(g.edges, i, d) && d in s.status && s.status[d] == WAITING_FOR_CALL)
    && (s.status[i] == BLOCKED || s.status[i] == WAITING_FOR_DEPENDENCY || Final(s.status[i]))
  }

  ghost predicate Documented(g: DependencyGraph, s: Swarm) {
    forall i :: i in s.status ==> DocumentedAs(g, s, i)
  }

  // The stop of an agent found its task still to be taken, or every dependent of
  // the agent was going to be blocked by another failure anyway.
  ghost predicate Harmless(g: DependencyGraph, s: Swarm, i: Id) {
    && i in s.reaped
    && (s.reaped[i] == STOPPED || forall j :: j in s.status && Reaches(g.edges, j, i) ==> BelowSpoiled(g, s.reaped, j))
  }

  ghost predicate StopsHarmless(g: DependencyGraph, s: Swarm) {
    forall i :: i in s.status && s.status[i] == STOPPED ==> Harmless(g, s, i)
  }

  // What the loop took of an agent, against what its status says at the end.
  lemma ExitStatus(g: DependencyGraph, s: Swarm, i: Id)
    requires Inv(g, s) && Exited(s) && i in s.status
    ensures i in s.reaped ==>
      s.status[i] == s.reaped[i] || (s.reaped[i] == WAITING_FOR_CALL && s.status[i] == STOPPED)
    ensures i !in s.reaped ==>
      s.status[i] == BLOCKED || s.status[i] == WAITING_FOR_DEPENDENCY || s.status[i] == STOPPED
  {
    assert AgentOk(g, s, i);
  }

  // Where stops were harmless, failures above an agent show in the statuses
  // exactly as the loop saw them.
  lemma HarmlessFailuresShow(g: DependencyGraph, s: Swarm, i: Id, d: Id)
    requires Inv(g, s) && Exited(s) && StopsHarmless(g, s) && i in s.status && Reaches(g.edges, i, d)
    ensures d in s.status && (s.status[d] == FAILED || s.status[d] == STOPPED) ==> BelowSpoiled(g, s.reaped, i)
    ensures Spoiled(s.reaped, d) ==> d in s.status && (s.status[d] == FAILED || s.status[d] == STOPPED)
  {
    if d in s.status {
      ExitStatus(g, s, d);
      assert s.status[d] == STOPPED ==> Harmless(g, s, d);
    }
    if d in s.reaped {
      assert AgentOk(g, s, d);
    }
  }

  // And so do the calls still awaited.
  lemma HarmlessCallsShow(g: DependencyGraph, s: Swarm, i: Id, d: Id)
    requires Inv(g, s) && Exited(s) && StopsHarmless(g, s) && i in s.status && Reaches(g.edges, i, d)
    requires !BelowSpoiled(g, s.reaped, i)
    ensures d in s.status && s.status[d] == WAITING_FOR_CALL <==> d in s.reaped && s.reaped[d] == WAITING_FOR_CALL
  {
    if d in s.status {
      ExitStatus(g, s, d);
      assert s.status[d] == STOPPED ==> Harmless(g, s, d);
    }
  }

  // An agent that ran has nothing failed, stopped or paused above it.
  lemma RanMeansClear(g: DependencyGraph, s: Swarm, i: Id)
    requires StrictGraph(g) && Inv(g, s) && Exited(s) && i in s.status
    ensures i in s.reaped ==> !BelowSpoiled(g, s.reaped, i)
    ensures i in s.reaped ==> forall d :: Reaches(g.edges, i, d) ==> d in s.status && s.status[d] == COMPLETE
  {
    ExitedAgent(g, s, i);
    forall d | i in s.reaped && Reaches(g.edges, i, d)
      ensures d in s.status && s.status[d] == COMPLETE
    {
      assert d in s.status;
      ExitStatus(g, s, d);
    }
  }

  lemma HarmlessBlocked(g: DependencyGraph, s: Swarm, i: Id)
    requires Inv(g, s) && Exited(s) && StopsHarmless(g, s) && i in s.status
    ensures BelowSpoiled(g, s.reaped, i) <==>
      exists d :: Reaches(g.edges, i, d) && d in s.status && (s.status[d] == FAILED || s.status[d] == STOPPED)
  {
    if d :| Reaches(g.edges, i, d) && d in s.status && (s.status[d] == FAILED || s.status[d] == STOPPED) {
      HarmlessFailuresShow(g, s, i, d);
    }
    if d :| Reaches(g.edges, i, d) && Spoiled(s.reaped, d) {
      HarmlessFailuresShow(g, s, i, d);
    }
  }

  lemma HarmlessWaiting(g: DependencyGraph, s: Swarm, i: Id)
    requires Inv(g, s) && Exited(s) && StopsHarmless(g, s) && i in s.status && !BelowSpoiled(g, s.reaped, i)
    ensures (exists d :: Reaches(g.edges, i, d) && d in s.status && s.status[d] == WAITING_FOR_CALL) <==>
      exists d :: Reaches(g.edges, i, d) && d in s.reaped && s.reaped[d] == WAITING_FOR_CALL
  {
    if d :| Reaches(g.edges, i, d) && d in s.status && s.status[d] == WAITING_FOR_CALL {
      HarmlessCallsShow(g, s, i, d);
    }
    if d :| Reaches(g.edges, i, d) && d in s.reaped && s.reaped[d] == WAITING_FOR_CALL {
      HarmlessCallsShow(g, s, i, d);
    }
  }

  lemma RanDocumented(g: DependencyGraph, s: Swarm, i: Id)
    requires StrictGraph(g) && Inv(g, s) && Exited(s) && i in s.status && i in s.reaped
    ensures DocumentedAs(g, s, i)
  {
    RanMeansClear(g, s, i);
    ExitStatus(g, s, i);
    assert AgentOk(g, s, i);
  }

  lemma UnrunDocumented(g: DependencyGraph, s: Swarm, i: Id)
    requires Inv(g, s) && Exited(s) && StopsHarmless(g, s) && i in s.status && i !in s.reaped && ExitedAs(g, s, i)
    ensures DocumentedAs(g, s, i)
  {
    ExitStatus(g, s, i);
    assert s.status[i] != STOPPED by {
      assert s.status[i] == STOPPED ==> Harmless(g, s, i);
    }
    HarmlessBlocked(g, s, i);
    if !BelowSpoiled(g, s.reaped, i) {
      HarmlessWaiting(g, s, i);
    }
  }

  lemma HarmlessDocumented(g: DependencyGraph, s: Swarm, i: Id)
    requires StrictGraph(g) && Inv(g, s) && Exited(s) && StopsHarmless(g, s) && i in s.status
    ensures DocumentedAs(g, s, i)
  {
    if i in s.reaped {
      RanDocumented(g, s, i);
    } else {
      ExitedAgent(g, s, i);
      UnrunDocumented(g, s, i);
    }
  }

  // An agent stopped before it ran is not documented at all: something above it
  // had failed, was stopped, or was waiting.
  lemma StoppedUnrun(g: DependencyGraph, s: Swarm, i: Id)
    requires StrictGraph(g) && Inv(g, s) && Exited(s) && i in s.status && s.status[i] == STOPPED && i !in s.reaped
    ensures !DocumentedAs(g, s, i)
  {
    assert AgentOk(g, s, i);
    var d := UnmetDependency(g, s, i);
    assert AgentOk(g, s, d);
  }

  // A dependent that is BLOCKED as documented below a late stop is below a failure.
  lemma BlockedBelowFailure(g: DependencyGraph, s: Swarm, i: Id, j: Id)
    requires StrictGraph(g) && Inv(g, s) && Exited(s) && i in s.status && s.status[i] == STOPPED
    requires i in s.reaped && j in s.status && Reaches(g.edges, j, i) && DocumentedAs(g, s, j)
    ensures BelowSpoiled(g, s.reaped, j)
  {
    assert s.status[j] == BLOCKED;
    ExitStatus(g, s, j);
    ExitedAgent(g, s, j);
    assert AgentOk(g, s, j);
  }

  lemma DocumentedHarmless(g: DependencyGraph, s: Swarm, i: Id)
    requires StrictGraph(g) && Inv(g, s) && Exited(s) && Documented(g, s) && i in s.status && s.status[i] == STOPPED
    ensures Harmless(g, s, i)
  {
    if i !in s.reaped {
      StoppedUnrun(g, s, i);
    }
    forall j | i in s.reaped && j in s.status && Reaches(g.edges, j, i)
      ensures BelowSpoiled(g, s.reaped, j)
    {
      BlockedBelowFailure(g, s, i, j);
    }
  }

  // When the loop exits, in every run: the statuses classify the team exactly,
  // and they read as documented exactly when every stop was harmless.
  lemma ExitClassification(g: DependencyGraph, s: Swarm)
    requires StrictGraph(g) && Reachable(g, s) && Exited(s)
    ensures forall i :: i in s.status ==> ExitedAs(g, s, i)
    ensures Documented(g, s) <==> StopsHarmless(g, s)
  {
    ReachableInv(g, s);
    ExitOutcome(g, s);
  }

  lemma ExitOutcome(g: DependencyGraph, s: Swarm)
    requires StrictGraph(g) && Inv(g, s) && Exited(s)
    ensures forall i :: i in s.status ==> ExitedAs(g, s, i)
    ensures Documented(g, s) <==> StopsHarmless(g, s)
  {
    forall i | i in s.status
      ensures ExitedAs(g, s, i)
      ensures StopsHarmless(g, s) ==> DocumentedAs(g, s, i)
      ensures Documented(g, s) && s.status[i] == STOPPED ==> Harmless(g, s, i)
    {
      ExitedAgent(g, s, i);
      if StopsHarmless(g, s) {
        HarmlessDocumented(g, s, i);
      }
      if Documented(g, s) && s.status[i] == STOPPED {
        DocumentedHarmless(g, s, i);
      }
    }
  }

  // Every stop of the run hits an agent whose task the loop has yet to take.
  ghost predicate StopsInTime(g: DependencyGraph, s: Swarm, steps: seq<Step>)
    requires ValidRun(g, s, steps)
    decreases |steps|
  {
    steps != [] ==>
      && (steps[0].Stop? ==> steps[0].agent in s.live + s.ended)
      && StopsInTime(g, Apply(g, s, steps[0]), steps[1..])
  }

  // A stopped agent's task is still to be taken, or was taken stopped.
  ghost predicate StopsSeen(s: Swarm) {
    forall i :: i in s.status && s.status[i] == STOPPED ==>
      i in s.live || i in s.ended || (i in s.reaped && s.reaped[i] == STOPPED)
  }

  lemma StepStopsSeen(g: DependencyGraph, s: Swarm, step: Step)
    requires StopsSeen(s) && Enabled(s, step) && (step.Stop? ==> step.agent in s.live + s.ended)
    requires step.Reap? ==> step.agent !in s.reaped
    ensures StopsSeen(Apply(g, s, step))
  {
  }

  lemma {:induction false} RunStopsSeen(g: DependencyGraph, s: Swarm, steps: seq<Step>)
    requires StrictGraph(g) && Inv(g, s) && ValidRun(g, s, steps) && StopsSeen(s) && StopsInTime(g, s, steps)
    ensures StopsSeen(After(g, s, steps))
    decreases |steps|
  {
    if steps != [] {
      StepStopsSeen(g, s, steps[0]);
      StepInv(g, s, steps[0]);
      RunStopsSeen(g, Apply(g, s, steps[0]), steps[1..]);
    }
  }

  lemma SeenHarmless(g: DependencyGraph, s: Swarm)
    requires StopsSeen(s) && Exited(s)
    ensures StopsHarmless(g, s)
  {
  }

  lemma StopsSeenDocumented(g: DependencyGraph, s: Swarm)
    requires StrictGraph(g) && Inv(g, s) && Exited(s) && StopsSeen(s)
    ensures Documented(g, s)
  {
    SeenHarmless(g, s);
    ExitOutcome(g, s);
  }

  // A run whose stops all come in time ends as documented.
  lemma StopsInTimeDocumented(g: DependencyGraph, steps: seq<Step>)
    requires StrictGraph(g) && ValidRun(g, Start(g), steps) && StopsInTime(g, Start(g), steps)
    requires Exited(After(g, Start(g), steps))
    ensures Documented(g, After(g, Start(g), steps))
  {
    StartInv(g);
    RunInv(g, Start(g), steps);
    RunStopsSeen(g, Start(g), steps);
    StopsSeenDocumented(g, After(g, Start(g), steps));
  }

  function LateStopGraph(): DependencyGraph {
    DependencyGraph(["a", "b"], map["a" := {}, "b" := {"a"}], map["a" := {"b"}, "b" := {}])
  }

  function NextLaunched(s: Swarm): Id
    requires Enabled(s, Launch)
  {
    s.phase.todo[0]
  }

  // In every run, whatever the agents and the orchestrator do: the agent a
  // launch step starts was never started before, and every transitive
  // dependency of it is COMPLETE.
  lemma LaunchSafety(g: DependencyGraph, s: Swarm)
    requires StrictGraph(g) && Enabled(s, Launch) && Reachable(g, s)
    ensures NextLaunched(s) !in s.Launched()
    ensures forall d :: Reaches(g.edges, NextLaunched(s), d) ==> d in s.status && s.status[d] == COMPLETE
  {
    ReachableInv(g, s);
    LaunchInv(g, s);
  }

  lemma ReachableVia(g: DependencyGraph, s: Swarm, step: Step, t: Swarm)
    requires Reachable(g, s) && Enabled(s, step) && Apply(g, s, step) == t
    ensures Reachable(g, t)
  {
    ReachableStep(g, s, step);
  }

  // A stop that is not harmless: "a" pauses for a call, the loop takes it, and
  // only then is "a" stopped. Its dependent "b" stays WAITING_FOR_DEPENDENCY
  // below a STOPPED agent.
  lemma LateStopLeavesDependentWaiting()
    ensures Reachable(LateStopGraph(), TakenSwarm(STOPPED))
    ensures Exited(TakenSwarm(STOPPED)) && Reaches(LateStopGraph().edges, "b", "a")
  {
    var g := LateStopGraph();
    EdgeReaches(g.edges, "b", "a");
    LateStopSteps();
    LateStopTaken();
    ReachableStart(g);
    ReachableVia(g, RunningSwarm(READY), Work("a", WORKING), RunningSwarm(WORKING));
    ReachableVia(g, RunningSwarm(WORKING), Work("a", WAITING_FOR_CALL), RunningSwarm(WAITING_FOR_CALL));
    ReachableVia(g, RunningSwarm(WAITING_FOR_CALL), EndTask("a"), EndedSwarm());
    ReachableVia(g, EndedSwarm(), Reap("a"), TakenSwarm(WAITING_FOR_CALL));
    ReachableVia(g, TakenSwarm(WAITING_FOR_CALL), Stop("a"), TakenSwarm(STOPPED));
  }

  function PairStatus(a: AgentState): map<Id, AgentState> {
    map["a" := a, "b" := WAITING_FOR_DEPENDENCY]
  }

  function RunningSwarm(a: AgentState): Swarm {
    Swarm(PairStatus(a), {"a"}, {}, {}, {}, Waiting, map[])
  }

  function EndedSwarm(): Swarm {
    Swarm(PairStatus(WAITING_FOR_CALL), {}, {"a"}, {}, {}, Waiting, map[])
  }

  function TakenSwarm(a: AgentState): Swarm {
    Swarm(PairStatus(a), {}, {}, {}, {"a"}, Waiting, map["a" := WAITING_FOR_CALL])
  }

  ghost predicate Leads(g: DependencyGraph, s: Swarm, step: Step, t: Swarm) {
    Enabled(s, step) && Apply(g, s, step) == t
  }

  lemma LateStopSteps()
    ensures var g := LateStopGraph();
      && Start(g) == RunningSwarm(READY)
      && Leads(g, RunningSwarm(READY), Work("a", WORKING), RunningSwarm(WORKING))
      && Leads(g, RunningSwarm(WORKING), Work("a", WAITING_FOR_CALL), RunningSwarm(WAITING_FOR_CALL))
      && Leads(g, RunningSwarm(WAITING_FOR_CALL), EndTask("a"), EndedSwarm())
  {
    var g := LateStopGraph();
    assert "a" in g.nodes && "b" in g.nodes;
    assert Elements(Ready(g, {}, {})) == {"a"};
    assert PairStatus(READY)["a" := WORKING] == PairStatus(WORKING);
    assert PairStatus(WORKING)["a" := WAITING_FOR_CALL] == PairStatus(WAITING_FOR_CALL);
  }

  lemma LateStopTaken()
    ensures Leads(LateStopGraph(), EndedSwarm(), Reap("a"), TakenSwarm(WAITING_FOR_CALL))
    ensures Leads(LateStopGraph(), TakenSwarm(WAITING_FOR_CALL), Stop("a"), TakenSwarm(STOPPED))
  {
    assert PairStatus(WAITING_FOR_CALL)["a" := STOPPED] == PairStatus(STOPPED);
  }

  // ---------------------------------------------------------------- progress and bounded work

  function StatusRank(st: AgentState): nat {
    if st == WAITING_FOR_DEPENDENCY then 5
    else if st == READY then 4
    else if st == WORKING then 3
    else if Terminal(st) then 1
    else 2
  }

  ghost function PlaceRank(s: Swarm, i: Id): nat {
    if i in s.live then 2 else if i in s.ended then 1 else if i in s.reaped then 0 else 3
  }

  ghost function AgentRank(s: Swarm, i: Id): nat {
    (if i in s.status then StatusRank(s.status[i]) else 0) + PlaceRank(s, i)
  }

  ghost function TotalRank(s: Swarm, nodes: seq<Id>): nat {
    if nodes == [] then 0 else TotalRank(s, nodes[..|nodes| - 1]) + AgentRank(s, nodes[|nodes| - 1])
  }

  ghost function PhaseRank(s: Swarm): nat {
    match s.phase
    case Waiting => 0
    case Readying(todo) => 2 * |todo|
    case Launching(todo) => if todo == [] then 0 else 2 * |todo| - 1
    case Blocking(pending) => |pending|
  }

  lemma {:induction false} TotalRankBound(s: Swarm, nodes: seq<Id>)
    ensures TotalRank(s, nodes) <= 8 * |nodes|
  {
    if nodes != [] {
      TotalRankBound(s, nodes[..|nodes| - 1]);
    }
  }

  lemma {:induction false} TotalRankMonotone(s: Swarm, t: Swarm, nodes: seq<Id>)
    requires RanksHold(nodes, s, t)
    ensures TotalRank(t, nodes) <= TotalRank(s, nodes)
  {
    if nodes != [] {
      TotalRankMonotone(s, t, nodes[..|nodes| - 1]);
    }
  }

  lemma {:induction false} TotalRankDrops(s: Swarm, t: Swarm, nodes: seq<Id>)
    requires RanksDrop(nodes, s, t)
    ensures TotalRank(t, nodes) < TotalRank(s, nodes)
  {
    var rest, last := nodes[..|nodes| - 1], nodes[|nodes| - 1];
    assert nodes == rest + [last];
    if AgentRank(t, last) < AgentRank(s, last) {
      TotalRankMonotone(s, t, rest);
    } else {
      TotalRankDrops(s, t, rest);
    }
  }

  ghost predicate RanksDrop(nodes: seq<Id>, s: Swarm, t: Swarm) {
    && (forall x :: x in nodes ==> AgentRank(t, x) <= AgentRank(s, x))
    && (exists x :: x in nodes && AgentRank(t, x) < AgentRank(s, x))
  }

  lemma OneRankDrops(nodes: seq<Id>, s: Swarm, t: Swarm, i: Id)
    requires i in nodes && AgentRank(t, i) < AgentRank(s, i)
    requires forall x :: x != i ==> AgentRank(t, x) == AgentRank(s, x)
    ensures RanksDrop(nodes, s, t)
  {
  }

  // A task or a stop moves its own agent only, and onwards.
  lemma OwnRankDrops(g: DependencyGraph, s: Swarm, step: Step)
    requires Enabled(s, step) && (step.Work? || step.EndTask? || step.Stop?)
    requires step.agent in s.status && AgentOk(g, s, step.agent) && s.ended !! s.live
    ensures AgentRank(Apply(g, s, step), step.agent) < AgentRank(s, step.agent)
  {
  }

  lemma OtherRanksStay(g: DependencyGraph, s: Swarm, step: Step, x: Id)
    requires Enabled(s, step) && (step.Work? || step.EndTask? || step.Stop?) && x != step.agent
    ensures AgentRank(Apply(g, s, step), x) == AgentRank(s, x)
  {
  }

  lemma TaskRanks(g: DependencyGraph, s: Swarm, step: Step)
    requires StrictGraph(g) && Inv(g, s) && Enabled(s, step) && (step.Work? || step.EndTask? || step.Stop?)
    ensures RanksDrop(g.nodes, s, Apply(g, s, step))
  {
    var t := Apply(g, s, step);
    assert step.agent in g.nodes;
    OwnRankDrops(g, s, step);
    forall x | x != step.agent
      ensures AgentRank(t, x) == AgentRank(s, x)
    {
      OtherRanksStay(g, s, step, x);
    }
    OneRankDrops(g.nodes, s, t, step.agent);
  }

  lemma ReapOwnRank(g: DependencyGraph, s: Swarm, i: Id)
    requires Enabled(s, Reap(i)) && i !in s.live && i !in s.reaped
    ensures AgentRank(Apply(g, s, Reap(i)), i) < AgentRank(s, i)
  {
  }

  lemma ReapOtherRank(g: DependencyGraph, s: Swarm, i: Id, x: Id)
    requires Enabled(s, Reap(i)) && x != i
    ensures AgentRank(Apply(g, s, Reap(i)), x) == AgentRank(s, x)
  {
  }

  lemma ReapRanks(g: DependencyGraph, s: Swarm, i: Id)
    requires StrictGraph(g) && Inv(g, s) && Enabled(s, Reap(i))
    ensures RanksDrop(g.nodes, s, Apply(g, s, Reap(i)))
  {
    assert i in g.nodes && i !in s.live && i !in s.reaped;
    ReapOwnRank(g, s, i);
    forall x | x != i
      ensures AgentRank(Apply(g, s, Reap(i)), x) == AgentRank(s, x)
    {
      ReapOtherRank(g, s, i, x);
    }
    OneRankDrops(g.nodes, s, Apply(g, s, Reap(i)), i);
  }

  lemma LaunchRanks(g: DependencyGraph, s: Swarm)
    requires StrictGraph(g) && Inv(g, s) && Enabled(s, Launch)
    ensures RanksDrop(g.nodes, s, Apply(g, s, Launch))
  {
    var i := s.phase.todo[0];
    assert i in Todo(s) && i in g.nodes;
    OneRankDrops(g.nodes, s, Apply(g, s, Launch), i);
  }

  ghost predicate RanksHold(nodes: seq<Id>, s: Swarm, t: Swarm) {
    forall x :: x in nodes ==> AgentRank(t, x) <= AgentRank(s, x)
  }

  lemma MarkReadyRanks(g: DependencyGraph, s: Swarm)
    requires Enabled(s, MarkReady)
    ensures RanksHold(g.nodes, s, Apply(g, s, MarkReady))
    ensures PhaseRank(Apply(g, s, MarkReady)) < PhaseRank(s)
  {
    var t := Apply(g, s, MarkReady);
    assert forall x :: PlaceRank(t, x) == PlaceRank(s, x);
  }

  lemma BlockRanks(g: DependencyGraph, s: Swarm, i: Id)
    requires Enabled(s, Block(i))
    ensures RanksHold(g.nodes, s, Apply(g, s, Block(i)))
    ensures PhaseRank(Apply(g, s, Block(i))) < PhaseRank(s)
  {
    var t := Apply(g, s, Block(i));
    assert forall x :: PlaceRank(t, x) == PlaceRank(s, x);
    assert |s.phase.pending - {i}| < |s.phase.pending|;
  }

  // Every step lowers some agent's rank and raises none, or raises none and
  // advances the loop.
  lemma StepRanks(g: DependencyGraph, s: Swarm, step: Step)
    requires StrictGraph(g) && Inv(g, s) && Enabled(s, step)
    ensures var t := Apply(g, s, step);
      || RanksDrop(g.nodes, s, t)
      || (RanksHold(g.nodes, s, t) && PhaseRank(t) < PhaseRank(s))
  {
    match step
    case Reap(i) => ReapRanks(g, s, i);
    case Launch => LaunchRanks(g, s);
    case MarkReady => MarkReadyRanks(g, s);
    case Block(i) => BlockRanks(g, s, i);
    case _ => TaskRanks(g, s, step);
  }

  ghost function Potential(g: DependencyGraph, s: Swarm): nat {
    TotalRank(s, g.nodes) * (2 * |g.nodes| + 1) + PhaseRank(s)
  }

  lemma ListedCount(nodes: seq<Id>, part: seq<Id>)
    requires Distinct(nodes) && Distinct(part) && Elements(part) <= Elements(nodes)
    ensures |part| <= |nodes|
  {
    DistinctCount(nodes);
    DistinctCount(part);
    SubsetCount(Elements(part), Elements(nodes));
  }

  lemma PhaseRankBound(g: DependencyGraph, s: Swarm)
    requires StrictGraph(g) && Inv(g, s)
    ensures PhaseRank(s) <= 2 * |g.nodes|
  {
    match s.phase
    case Readying(todo) => ListedCount(g.nodes, todo);
    case Launching(todo) => ListedCount(g.nodes, todo);
    case Blocking(pending) =>
      DistinctCount(g.nodes);
      SubsetCount(pending, Elements(g.nodes));
    case Waiting =>
  }

  lemma PotentialDrops(g: DependencyGraph, s: Swarm, step: Step)
    requires StrictGraph(g) && Inv(g, s) && Enabled(s, step)
    ensures Potential(g, Apply(g, s, step)) < Potential(g, s)
  {
    var t := Apply(g, s, step);
    StepRanks(g, s, step);
    StepInv(g, s, step);
    PhaseRankBound(g, t);
    RankedDrop(g, s, t);
  }

  lemma StepFacts(g: DependencyGraph, s: Swarm, step: Step)
    requires StrictGraph(g) && Inv(g, s) && Enabled(s, step)
    ensures Inv(g, Apply(g, s, step)) && Potential(g, Apply(g, s, step)) < Potential(g, s)
  {
    StepInv(g, s, step);
    PotentialDrops(g, s, step);
  }

  lemma RankedDrop(g: DependencyGraph, s: Swarm, t: Swarm)
    requires RanksDrop(g.nodes, s, t) || (RanksHold(g.nodes, s, t) && PhaseRank(t) < PhaseRank(s))
    requires PhaseRank(t) <= 2 * |g.nodes|
    ensures Potential(g, t) < Potential(g, s)
  {
    if RanksDrop(g.nodes, s, t) {
      TotalRankDrops(s, t, g.nodes);
    } else {
      TotalRankMonotone(s, t, g.nodes);
    }
    LexicographicDrop(TotalRank(s, g.nodes), TotalRank(t, g.nodes), PhaseRank(s), PhaseRank(t), 2 * |g.nodes| + 1);
  }

  lemma LexicographicDrop(r: nat, q: nat, p: nat, o: nat, m: nat)
    requires o < m && (q < r || (q == r && o < p))
    ensures q * m + o < r * m + p
  {
    if q < r {
      assert (q + 1) * m <= r * m;
    }
  }

  // No run goes on forever: its length is bounded by the size of the team.
  lemma {:induction false} RunBounded(g: DependencyGraph, s: Swarm, steps: seq<Step>)
    requires StrictGraph(g) && Inv(g, s) && ValidRun(g, s, steps)
    ensures |steps| <= Potential(g, s)
    decreases |steps|
  {
    if steps != [] {
      StepInv(g, s, steps[0]);
      PotentialDrops(g, s, steps[0]);
      RunBounded(g, Apply(g, s, steps[0]), steps[1..]);
    }
  }

  // And a run that has not exited can always continue without the
  // orchestrator's help, so every maximal run ends with the loop exited.
  lemma NeverStuck(g: DependencyGraph, s: Swarm) returns (step: Step)
    requires StrictGraph(g) && Inv(g, s) && !Exited(s)
    ensures Enabled(s, step) && !step.Stop?
  {
    match s.phase
    case Readying(todo) =>
      assert todo[0] in Todo(s);
      step := MarkReady;
    case Launching(_) => step := Launch;
    case Blocking(pending) =>
      var i :| i in pending;
      step := Block(i);
    case Waiting =>
      if s.ended != {} {
        var i :| i in s.ended;
        step := Reap(i);
      } else {
        var i :| i in s.live;
        assert AgentOk(g, s, i);
        step := if s.status[i] == READY then Work(i, WORKING) else if s.status[i] == WORKING then Work(i, COMPLETE)
            else EndTask(i);
      }
  }
}
