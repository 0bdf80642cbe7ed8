// The runner's loop itself. Its fields are what the loop and the agents' tasks
// share; whatever the tasks and the orchestrator do while the loop is
// suspended at an await is taken from an arbitrary plan.
module Runner {
  import opened Models
  import opened Ordering
  import opened Graph
  import opened Scheduler

  // What a task or a stop leaves as it was.
  lemma ActEffect(g: DependencyGraph, s: Swarm, step: Step)
    requires (step.Work? || step.EndTask? || step.Stop?) && Enabled(s, step)
    ensures var t := Apply(g, s, step);
      && s.ended <= t.ended && (step.EndTask? ==> step.agent in s.live)
      && t.status.Keys == s.status.Keys
      && forall i :: i in t.status && (i != step.agent || step.EndTask?) ==> t.status[i] == s.status[i]
    ensures Apply(g, s, step).live + Apply(g, s, step).ended == s.live + s.ended
    ensures !step.EndTask? ==> !Terminal(s.status[step.agent])
  {
  }

  class AgentRunner {
    const g: DependencyGraph
    var status: map<Id, AgentState>
    var live: set<Id>
    var ended: set<Id>
    var completed: set<Id>
    var finished: set<Id>
    ghost var phase: Phase
    ghost var reaped: map<Id, AgentState>

    ghost function View(): Swarm
      reads this
    {
      Swarm(status, live, ended, completed, finished, phase, reaped)
    }

    ghost predicate Valid()
      reads this
    {
      StrictGraph(g) && Converse(g.edges, g.reverse) && Inv(g, View())
    }

    // The initial transitions and the first launches.
    constructor (graph: DependencyGraph)
      requires StrictGraph(graph) && Converse(graph.edges, graph.reverse)
      ensures g == graph && Valid() && View() == Start(graph)
    {
      g := graph;
      status := map n | n in graph.nodes :: if Deps(graph.edges, n) == {} then READY else WAITING_FOR_DEPENDENCY;
      live := Elements(Ready(graph, {}, {}));
      ended, completed, finished := {}, {}, {};
      phase, reaped := Scheduler.Waiting, map[];
      new;
      StartInv(graph);
    }

    // An await: tasks and the orchestrator act, the loop does not.
    method Suspend(plan: seq<Step>)
      requires Valid()
      modifies this`status, this`live, this`ended
      ensures Valid() && old(ended) <= ended && live + ended == old(live + ended)
      ensures Potential(g, View()) <= old(Potential(g, View()))
      ensures old(status).Keys == status.Keys
      ensures forall i :: i in old(status) && Terminal(old(status[i])) ==> i in status && status[i] == old(status[i])
    {
      for k := 0 to |plan|
        invariant Valid() && old(ended) <= ended && live + ended == old(live + ended)
        invariant Potential(g, View()) <= old(Potential(g, View()))
        invariant old(status).Keys == status.Keys
        invariant forall i :: i in old(status) && Terminal(old(status[i])) ==> status[i] == old(status[i])
      {
        var step := plan[k];
        if (step.Work? || step.EndTask? || step.Stop?) && Allowed(step) {
          Act(step);
        }
      }
    }

    predicate Allowed(step: Step)
      reads this
      requires step.Work? || step.EndTask? || step.Stop?
      ensures Allowed(step) <==> Enabled(View(), step)
    {
      match step
      case Work(i, to) => i in live && i in status && TaskTransition(status[i], to)
      case EndTask(i) => i in live && i in status && Final(status[i])
      case Stop(i) => i in status && !Terminal(status[i])
    }

    method Move(step: Step)
      requires (step.Work? || step.EndTask? || step.Stop?) && Enabled(View(), step)
      modifies this`status, this`live, this`ended
      ensures View() == Apply(g, old(View()), step)
    {
      match step
      case Work(i, to) => status := status[i := to];
      case EndTask(i) => live, ended := live - {i}, ended + {i};
      case Stop(i) => status := status[i := STOPPED];
    }

    method Act(step: Step)
      requires Valid() && (step.Work? || step.EndTask? || step.Stop?) && Enabled(View(), step)
      modifies this`status, this`live, this`ended
      ensures View() == Apply(g, old(View()), step) && Valid()
      ensures Potential(g, View()) < old(Potential(g, View()))
      ensures old(ended) <= ended && live + ended == old(live + ended) && old(status).Keys == status.Keys
      ensures forall i :: i in status && (i != step.agent || step.EndTask?) ==> status[i] == old(status)[i]
      ensures !step.EndTask? ==> !Terminal(old(status)[step.agent])
    {
      StepFacts(g, View(), step);
      ActEffect(g, View(), step);
      Move(step);
    }

    // asyncio.wait: returns once some task has ended.
    method WaitForTask(plan: seq<Step>)
      requires Valid() && live + ended != {}
      modifies this`status, this`live, this`ended
      ensures Valid() && ended != {}
      ensures Potential(g, View()) <= old(Potential(g, View()))
    {
      Suspend(plan);
      while ended == {}
        invariant Valid() && live + ended != {}
        invariant Potential(g, View()) <= old(Potential(g, View()))
        decreases Potential(g, View())
      {
        var i :| i in live;
        assert AgentOk(g, View(), i);
        Act(if status[i] == READY then Work(i, WORKING) else if status[i] == WORKING then Work(i, COMPLETE)
            else EndTask(i));
      }
    }

    // running.pop, finished.add and, for a completed agent, completed.add.
    method Take(i: Id) returns (todo: seq<Id>, below: set<Id>)
      requires StrictGraph(g) && Converse(g.edges, g.reverse)
      requires phase == Scheduler.Waiting && i in ended && i in status
      modifies this
      ensures View() == Apply(g, old(View()), Reap(i))
      ensures ended == old(ended) - {i}
      ensures phase == if status[i] == COMPLETE then AfterLaunch(todo) else AfterBlock(below)
    {
      todo, below := [], {};
      ended, finished, reaped := ended - {i}, finished + {i}, reaped[i := status[i]];
      if status[i] == COMPLETE {
        completed := completed + {i};
        todo := Ready(g, completed, finished + live + ended);
        phase := AfterLaunch(todo);
      } else if Failure(status[i]) {
        below := Downstream(g, i);
        DownstreamIsBelow(i, below);
        phase := AfterBlock(below);
      }
    }

    lemma DownstreamIsBelow(i: Id, below: set<Id>)
      requires StrictGraph(g) && Converse(g.edges, g.reverse)
      requires forall x :: x in below <==> Reaches(g.reverse, i, x)
      ensures below == DownstreamOf(g, i)
    {
      forall x
        ensures x in below <==> x in DownstreamOf(g, i)
      {
        ConverseReaches(g.edges, g.reverse, x, i);
        if Reaches(g.edges, x, i) {
          var d := FirstEdge(g.edges, x, i);
        }
      }
    }

    method MarkHead(todo: seq<Id>)
      requires Valid() && phase == Readying(todo) && todo != []
      modifies this`status, this`phase
      ensures View() == Apply(g, old(View()), MarkReady) && Valid() && phase == Launching(todo)
      ensures Potential(g, View()) < old(Potential(g, View()))
    {
      assert todo[0] in Todo(View());
      StepInv(g, View(), MarkReady);
      PotentialDrops(g, View(), MarkReady);
      if status[todo[0]] == WAITING_FOR_DEPENDENCY {
        status := status[todo[0] := READY];
      }
      phase := Launching(todo);
    }

    // No agent is ever launched twice, or before everything above it completed.
    method LaunchHead(todo: seq<Id>)
      requires Valid() && phase == Launching(todo) && todo != []
      modifies this`live, this`phase
      ensures View() == Apply(g, old(View()), Launch) && Valid() && phase == AfterLaunch(todo[1..])
      ensures todo[0] !in old(View().Launched()) && todo[0] in live
      ensures forall d :: Reaches(g.edges, todo[0], d) ==> d in status && status[d] == COMPLETE
      ensures Potential(g, View()) < old(Potential(g, View()))
    {
      LaunchInv(g, View());
      PotentialDrops(g, View(), Launch);
      live := live + {todo[0]};
      phase := AfterLaunch(todo[1..]);
    }

    method BlockDependent(below: set<Id>, x: Id)
      requires phase == Blocking(below) && x in below && x in status
      modifies this`status, this`finished, this`phase
      ensures View() == Apply(g, old(View()), Block(x)) && phase == AfterBlock(below - {x})
    {
      if status[x] == WAITING_FOR_DEPENDENCY {
        status := status[x := BLOCKED];
        finished := finished + {x};
      }
      phase := AfterBlock(below - {x});
    }

    method BlockNext(below: set<Id>, x: Id, plan: seq<Step>)
      requires Valid() && phase == Blocking(below) && x in below
      modifies this
      ensures Valid() && phase == AfterBlock(below - {x}) && old(ended) <= ended
      ensures Potential(g, View()) < old(Potential(g, View()))
    {
      StepFacts(g, View(), Block(x));
      BlockDependent(below, x);
      Suspend(plan);
    }

    method Dispatch(todo0: seq<Id>, plans: nat -> seq<Step>, k0: nat) returns (k: nat)
      requires Valid() && phase == AfterLaunch(todo0)
      modifies this
      ensures Valid() && phase == Scheduler.Waiting && old(ended) <= ended
      ensures Potential(g, View()) <= old(Potential(g, View()))
    {
      var todo := todo0;
      k := k0;
      while todo != []
        invariant Valid() && phase == AfterLaunch(todo) && old(ended) <= ended
        invariant Potential(g, View()) <= old(Potential(g, View()))
        decreases |todo|
      {
        MarkHead(todo);
        Suspend(plans(k));
        LaunchHead(todo);
        Suspend(plans(k + 1));
        todo, k := todo[1..], k + 2;
      }
    }

    method BlockAll(below0: set<Id>, plans: nat -> seq<Step>, k0: nat) returns (k: nat)
      requires Valid() && phase == AfterBlock(below0)
      modifies this
      ensures Valid() && phase == Scheduler.Waiting && old(ended) <= ended
      ensures Potential(g, View()) <= old(Potential(g, View()))
    {
      var below := below0;
      k := k0;
      while below != {}
        invariant Valid() && phase == AfterBlock(below) && old(ended) <= ended
        invariant Potential(g, View()) <= old(Potential(g, View()))
        decreases below
      {
        var x :| x in below;
        BlockNext(below, x, plans(k));
        below := below - {x};
        k := k + 1;
      }
    }

    // The loop of run_swarm. It always exits, and the statuses it leaves
    // classify the team.
    method RunSwarm(plans: nat -> seq<Step>)
      requires Valid() && phase == Scheduler.Waiting
      modifies this
      ensures Valid() && Exited(View())
      ensures forall i :: i in status ==> ExitedAs(g, View(), i)
      ensures Documented(g, View()) <==> StopsHarmless(g, View())
    {
      var k := 0;
      while live + ended != {}
        invariant Valid() && phase == Scheduler.Waiting
        decreases Potential(g, View())
      {
        WaitForTask(plans(k));
        k := k + 1;
        var done := ended;
        ghost var before := Potential(g, View());
        while done != {}
          invariant Valid() && phase == Scheduler.Waiting && done <= ended
          invariant Potential(g, View()) <= before && (done == {} ==> Potential(g, View()) < before)
          decreases done
        {
          var task :| task in done;
          done := done - {task};
          StepFacts(g, View(), Reap(task));
          var todo, below := Take(task);
          if status[task] == COMPLETE {
            k := Dispatch(todo, plans, k);
          } else {
            k := BlockAll(below, plans, k);
          }
        }
      }
      ExitOutcome(g, View());
    }
  }

  // What the strict construction hands to the loop.
  lemma StrictTeamGraph(specs: seq<AgentSpec>, g: DependencyGraph)
    requires StrictOk(specs) && g.nodes == Ids(specs) && g.edges == EdgesOf(specs)
    ensures StrictGraph(g)
  {
    IdsListIdSet(specs);
    assert forall i :: 0 <= i < |specs| ==> g.nodes[i] == specs[i].id;
  }

  // run_swarm on any list of specs: refused exactly when the list is not a
  // closed DAG, and otherwise run to the end.
  method RunTeam(specs: seq<AgentSpec>, plans: nat -> seq<Step>) returns (r: Result<AgentRunner, GraphError>)
    ensures r.Ok? <==> StrictOk(specs)
    ensures r.Ok? ==> var runner := r.value;
      && runner.Valid() && Exited(runner.View())
      && runner.status.Keys == IdSet(specs)
      && (forall i :: i in runner.status ==> ExitedAs(runner.g, runner.View(), i))
      && (Documented(runner.g, runner.View()) <==> StopsHarmless(runner.g, runner.View()))
  {
    var built := BuildGraph(specs, true);
    if built.Err? {
      return Err(built.error);
    }
    StrictTeamGraph(specs, built.value);
    var runner := new AgentRunner(built.value);
    runner.RunSwarm(plans);
    IdsListIdSet(specs);
    r := Ok(runner);
  }
}
