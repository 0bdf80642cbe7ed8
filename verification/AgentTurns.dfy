// One agent's work: a bounded number of model turns that ends in a delivered
// artifact, a requested call, or a failure with its cause.
module AgentTurns {
  import opened Models
  import opened Schema
  import Scheduler

  // A tool call of a turn, with what the tool does: raise, or return a result
  // that may name a call intent.
  datatype ToolCall = ToolCall(tool: string, raises: bool, intent: Option<Id>)

  datatype Turn = Turn(calls: seq<ToolCall>, output: Option<Json>)

  datatype Cause = SchemaInvalid | ToolNotPermitted(tool: string) | Crashed | OutputInvalid | TurnLimit

  datatype Outcome = Delivered(artifact: Json) | WaitingForCall(intent: Id) | Failed(cause: Cause)

  const CALL_INTENT_TOOL := "calls.request_intent"

  function StateAfter(outcome: Outcome): AgentState {
    match outcome
    case Delivered(_) => COMPLETE
    case WaitingForCall(_) => WAITING_FOR_CALL
    case Failed(_) => AgentState.FAILED
  }

  // The scheduler knows every way this can end.
  lemma OutcomesAreScheduled(outcome: Outcome)
    ensures Scheduler.TaskTransition(if outcome == Failed(SchemaInvalid) then READY else WORKING, StateAfter(outcome))
    ensures Scheduler.Final(StateAfter(outcome))
  {
  }

  // What running the calls of a turn comes to: the tools that were called, and
  // why they stopped, or the intent to wait for.
  datatype Tools = Tools(ran: seq<string>, stopped: Option<Cause>, intent: Option<Id>)

  function RunTools(calls: seq<ToolCall>, allowed: seq<string>): Tools {
    if calls == [] then Tools([], None, None) else
      var before := RunTools(calls[..|calls| - 1], allowed);
      var call := calls[|calls| - 1];
      if before.stopped.Some? then before
      else if call.tool !in allowed then before.(stopped := Some(ToolNotPermitted(call.tool)))
      else if call.raises then Tools(before.ran + [call.tool], Some(Crashed), before.intent)
      else Tools(before.ran + [call.tool], None, if call.tool == CALL_INTENT_TOOL && call.intent.Some? then call.intent
          else before.intent)
  }

  // Nothing outside the grant is ever called; asking for it, or a tool that
  // raises, is what stops the calls.
  lemma {:induction false} RunToolsGranted(calls: seq<ToolCall>, allowed: seq<string>)
    ensures forall t :: t in RunTools(calls, allowed).ran ==> t in allowed
    ensures RunTools(calls, allowed).stopped.Some? <==> exists c :: c in calls && (c.tool !in allowed || c.raises)
    ensures RunTools(calls, allowed).stopped.Some? ==>
      var cause := RunTools(calls, allowed).stopped.value;
      cause == Crashed || (cause.ToolNotPermitted? && cause.tool !in allowed)
  {
    if calls != [] {
      var rest, last := calls[..|calls| - 1], calls[|calls| - 1];
      assert calls == rest + [last];
      RunToolsGranted(rest, allowed);
    }
  }

  // A turn that neither ends the work nor offers an output to check.
  predicate Idles(turn: Option<Turn>, allowed: seq<string>) {
    turn.Some? && RunTools(turn.value.calls, allowed).stopped.None? && RunTools(turn.value.calls, allowed).intent.None?
        && turn.value.output.None?
  }

  // A turn that offers an output, which the schema decides about.
  predicate Offers(turn: Option<Turn>, allowed: seq<string>) {
    turn.Some? && RunTools(turn.value.calls, allowed).stopped.None? && RunTools(turn.value.calls, allowed).intent.None?
        && turn.value.output.Some?
  }

  predicate Rejected(turn: Option<Turn>, allowed: seq<string>, schema: Json)
    requires ValidateSchema(schema)
  {
    Offers(turn, allowed) && Problems(turn.value.output.value, schema, ROOT, 0) != []
  }

  // How many of the first n turns offered an output the schema refused.
  function Rejections(model: nat -> Option<Turn>, n: nat, allowed: seq<string>, schema: Json): nat
    requires ValidateSchema(schema)
  {
    if n == 0 then 0 else Rejections(model, n - 1, allowed, schema) + if Rejected(model(n - 1), allowed, schema) then 1
        else 0
  }

  // How a turn that ended the work ended it. What is delivered is what the turn
  // offered, and the schema accepts it.
  ghost predicate EndedBy(turn: Option<Turn>, allowed: seq<string>, schema: Json, outcome: Outcome)
    requires ValidateSchema(schema)
  {
    match outcome
    case Delivered(artifact) =>
      Offers(turn, allowed) && turn.value.output == Some(artifact) && Conforms(artifact, ShapeOf(schema, 0))
    case WaitingForCall(intent) =>
      && turn.Some? && RunTools(turn.value.calls, allowed).stopped.None?
      && RunTools(turn.value.calls, allowed).intent == Some(intent)
    case Failed(Crashed) => turn.None? || RunTools(turn.value.calls, allowed).stopped == Some(Crashed)
    case Failed(ToolNotPermitted(tool)) =>
      tool !in allowed && turn.Some? && RunTools(turn.value.calls, allowed).stopped == Some(ToolNotPermitted(tool))
    case Failed(OutputInvalid) => Rejected(turn, allowed, schema)
    case _ => false
  }

  datatype Next = Ends(outcome: Outcome) | Retries | Continues

  // One turn: run its tools, then look at what it offers.
  method TakeTurn(turn: Option<Turn>, allowed: seq<string>, schema: Json) returns (next: Next, ran: seq<string>)
    requires ValidateSchema(schema)
    ensures forall t :: t in ran ==> t in allowed
    ensures next.Ends? ==> EndedBy(turn, allowed, schema, next.outcome) && next.outcome != Failed(OutputInvalid)
    ensures next.Retries? <==> Rejected(turn, allowed, schema)
    ensures next.Continues? <==> Idles(turn, allowed)
  {
    if turn.None? {
      return Ends(Failed(Crashed)), [];
    }
    var tools := RunTools(turn.value.calls, allowed);
    RunToolsGranted(turn.value.calls, allowed);
    ran := tools.ran;
    if tools.stopped.Some? {
      return Ends(Failed(tools.stopped.value)), ran;
    }
    if tools.intent.Some? {
      return Ends(WaitingForCall(tools.intent.value)), ran;
    }
    if turn.value.output.None? {
      return Continues, ran;
    }
    var errors := ValidateOutput(turn.value.output.value, schema);
    next := if errors == [] then Ends(Delivered(turn.value.output.value)) else Retries;
  }

  // The turn loop. `model` answers turn by turn, None standing for an error.
  method Execute(schema: Json, allowed: seq<string>, maxTurns: nat, model: nat -> Option<Turn>)
    returns (outcome: Outcome, turns: nat, ran: seq<string>)
    ensures turns <= maxTurns + 1 && forall t :: t in ran ==> t in allowed
    ensures outcome == Failed(SchemaInvalid) <==> !ValidateSchema(schema)
    ensures !ValidateSchema(schema) ==> turns == 0 && ran == []
    // Every turn but the last leads on, and the last ends the work unless it was
    // the last one allowed.
    ensures ValidateSchema(schema) ==>
      forall k :: 0 <= k < turns - 1 ==> Idles(model(k), allowed) || Rejected(model(k), allowed, schema)
    ensures ValidateSchema(schema) && outcome != Failed(TurnLimit) ==>
      turns > 0 && EndedBy(model(turns - 1), allowed, schema, outcome)
    // One extra turn is granted to whoever had an output rejected, and a second
    // rejection is final.
    ensures ValidateSchema(schema) && turns == maxTurns + 1 ==> Rejections(model, turns - 1, allowed, schema) == 1
    ensures outcome == Failed(OutputInvalid) ==>
        ValidateSchema(schema) && Rejections(model, turns, allowed, schema) == 2
    ensures outcome == Failed(TurnLimit) ==>
      && ValidateSchema(schema) && Rejections(model, turns, allowed, schema) <= 1
      && turns == maxTurns + Rejections(model, turns, allowed, schema)
      && forall k :: 0 <= k < turns ==> Idles(model(k), allowed) || Rejected(model(k), allowed, schema)
  {
    turns, ran := 0, [];
    if !ValidateSchema(schema) {
      return Failed(SchemaInvalid), turns, ran;
    }
    var retried := false;
    while turns < maxTurns || (retried && turns < maxTurns + 1)
      invariant turns <= maxTurns + 1 && forall t :: t in ran ==> t in allowed
      invariant forall k :: 0 <= k < turns ==> Idles(model(k), allowed) || Rejected(model(k), allowed, schema)
      invariant Rejections(model, turns, allowed, schema) == if retried then 1 else 0
      invariant turns == maxTurns + 1 ==> retried && Rejections(model, turns - 1, allowed, schema) == 1
      decreases maxTurns + 1 - turns
    {
      var next, called := TakeTurn(model(turns), allowed, schema);
      turns, ran := turns + 1, ran + called;
      if next.Ends? {
        return next.outcome, turns, ran;
      }
      if next.Retries? {
        if retried {
          return Failed(OutputInvalid), turns, ran;
        }
        retried := true;
      }
    }
    outcome := Failed(TurnLimit);
  }
}
