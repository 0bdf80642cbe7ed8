// Turning one call run into evidence: the creating execute_call, any number of
// finalize_run calls and webhook deliveries, in every interleaving of their
// transactions. A run of the protocol is a list of steps; a step that its
// process is not ready for does nothing.
module CallFinalization {
  import opened Models

  type Pid = nat
  type EventId = string

  datatype CallStatus = QUEUED | IN_PROGRESS | COMPLETED | CALL_FAILED | CANCELED

  predicate Terminal(st: CallStatus) {
    st != QUEUED && st != IN_PROGRESS
  }

  // The stored row; `detail` stands for the fields copied as they are.
  datatype CallRun = CallRun(
    status: CallStatus,
    startedAt: Option<int>,
    completedAt: Option<int>,
    structuredResult: Option<Json>,
    detail: Json)

  // Only a row that is there and not terminal yet may be promoted.
  predicate Promotable(row: Option<CallRun>) {
    row.Some? && !Terminal(row.value.status)
  }

  function Merged(stored: CallRun, latest: CallRun, unstructured: bool, now: int): CallRun {
    CallRun(
      latest.status,
      if stored.startedAt.Some? then stored.startedAt else latest.startedAt,
      if latest.completedAt.Some? then latest.completedAt else Some(now),
      if unstructured then None else latest.structuredResult,
      latest.detail)
  }

  datatype ReceiptOutcome = RECEIVED | PROCESSED | NOT_TERMINAL | REJECTED | FAILED

  // A poller is a finalize_run of its own; a delivery reaches it through the receiver.
  datatype Role = Creator | Poller | Delivery(event: EventId, validationFailed: bool)

  // What a process does next. In execute_call: look for a run, ask the provider,
  // store the run. In the receiver: look the event id up and reopen a failed
  // receipt, or add a new one, validate the payload. In finalize_run: load the run, ask for the
  // authoritative status, update conditionally, or return what the winner stored.
  // Then, in common: ingest the claims, move the mission on, report.
  datatype Pc =
    | Checking
    | Executing
    | Storing(run: CallRun)
    | Receiving
    | Inserting
    | Correlating
    | Reading
    | Asking(stored: CallRun)
    | Promoting(merged: CallRun)
    | Losing
    | Writing(run: CallRun)
    | Marking
    | Ending(outcome: ReceiptOutcome)
    | Done

  datatype Proc = Proc(role: Role, pc: Pc)

  // The run table, the ingested runs, the processes and the receipts; and, as
  // history: who entered the claims-writing step and how often, whether the ingest
  // failed, how many deliveries of an event were let through, and how often it was
  // recorded as failed.
  datatype State = State(
    run: Option<CallRun>,
    written: seq<CallRun>,
    procs: map<Pid, Proc>,
    receipts: map<EventId, ReceiptOutcome>,
    writer: Option<Pid>,
    entered: nat,
    lost: bool,
    passed: map<EventId, nat>,
    failed: map<EventId, nat>)

  const INITIAL := State(None, [], map[], map[], None, 0, false, map[], map[])

  datatype Step =
    | Spawn(role: Role)
    | Check
    | Execute(result: Option<CallRun>)
    | Store
    | Receive
    | Insert
    | Correlate(ok: bool)
    | ReadRun(seesClaims: bool)
    | ReRead(latest: Option<CallRun>, now: int)
    | Promote
    | ReadWinner
    | Ingest(ok: bool)
    | Mark(ok: bool)
    | SetOutcome

  // ---------------------------------------------------------------- steps

  predicate CreatorBusy(q: Proc) {
    q.role == Creator && !q.pc.Ending? && !q.pc.Done?
  }

  function Enter(role: Role): Pc {
    match role
    case Creator => Checking
    case Poller => Reading
    case Delivery(_, _) => Receiving
  }

  // At most one execute_call at a time; everything else runs freely.
  predicate Enabled(s: State, p: Pid, step: Step) {
    match step
    case Spawn(role) => p !in s.procs && (role == Creator ==> forall q :: q in s.procs ==> !CreatorBusy(s.procs[q]))
    case _ => p in s.procs && Awaits(s, s.procs[p], step)
  }

  predicate Awaits(s: State, q: Proc, step: Step) {
    match step
    case Spawn(_) => false
    case Check => q.pc.Checking?
    case Execute(_) => q.pc.Executing?
    case Store => q.pc.Storing?
    case Receive => q.pc.Receiving?
    case Insert => q.pc.Inserting?
    case Correlate(_) => q.pc.Correlating?
    case ReadRun(seesClaims) => q.pc.Reading? && (seesClaims ==> s.written != [])
    case ReRead(_, _) => q.pc.Asking?
    case Promote => q.pc.Promoting?
    case ReadWinner => q.pc.Losing?
    case Ingest(_) => q.pc.Writing?
    case Mark(_) => q.pc.Marking?
    case SetOutcome => q.pc.Ending? && q.role.Delivery?
  }

  function EventOf(s: State, p: Pid): EventId
    requires p in s.procs
  {
    match s.procs[p].role
    case Delivery(e, _) => e
    case _ => ""
  }

  predicate Unstructured(role: Role) {
    role.Delivery? && role.validationFailed
  }

  function Passes(s: State, e: EventId): nat {
    if e in s.passed then s.passed[e] else 0
  }

  function Failures(s: State, e: EventId): nat {
    if e in s.failed then s.failed[e] else 0
  }

  predicate RecordedFailed(s: State, e: EventId) {
    e in s.receipts && s.receipts[e] == ReceiptOutcome.FAILED
  }

  // Where the process goes.
  function Next(s: State, p: Pid, step: Step): Pc
    requires Enabled(s, p, step)
  {
    match step
    case Spawn(role) => Enter(role)
    case Check => if s.run.Some? then Ending(PROCESSED) else Executing
    case Execute(result) => if result.Some? then Storing(result.value) else Ending(ReceiptOutcome.FAILED)
    case Store =>
      var run := s.procs[p].pc.run;
      if Terminal(run.status) then Writing(run) else Ending(NOT_TERMINAL)
    case Receive =>
      var e := EventOf(s, p);
      if e !in s.receipts then Inserting else if RecordedFailed(s, e) then Correlating else Done
    case Insert => if EventOf(s, p) in s.receipts then Done else Correlating
    case Correlate(ok) => if ok && s.run.Some? then Reading else Ending(REJECTED)
    case ReadRun(seesClaims) =>
      if s.run.None? then Ending(ReceiptOutcome.FAILED)
      else if Terminal(s.run.value.status) && seesClaims then Ending(PROCESSED)
      else Asking(s.run.value)
    case ReRead(latest, now) =>
      if latest.None? then Ending(ReceiptOutcome.FAILED)
      else if !Terminal(latest.value.status) then Ending(NOT_TERMINAL)
      else Promoting(Merged(s.procs[p].pc.stored, latest.value, Unstructured(s.procs[p].role), now))
    case Promote => if Promotable(s.run) then Writing(s.procs[p].pc.merged) else Losing
    case ReadWinner => if s.run.Some? && Terminal(s.run.value.status) then Ending(PROCESSED) else Ending(NOT_TERMINAL)
    case Ingest(ok) => if ok then Marking else Ending(ReceiptOutcome.FAILED)
    case Mark(ok) => if ok then Ending(PROCESSED) else Ending(ReceiptOutcome.FAILED)
    case SetOutcome => Done
  }

  function LetThrough(s: State, e: EventId): State {
    s.(receipts := s.receipts[e := RECEIVED], passed := s.passed[e := Passes(s, e) + 1])
  }

  // Storing or promoting a terminal run leads straight to the claims.
  function EnterWriting(s: State, p: Pid, run: CallRun): State {
    s.(run := Some(run), writer := Some(p), entered := s.entered + 1)
  }

  // What becomes of the stored rows.
  function Stored(s: State, p: Pid, step: Step): State
    requires Enabled(s, p, step)
  {
    match step
    case Store =>
      var run := s.procs[p].pc.run;
      if Terminal(run.status) then EnterWriting(s, p, run) else s.(run := Some(run))
    case Receive => if RecordedFailed(s, EventOf(s, p)) then LetThrough(s, EventOf(s, p)) else s
    case Insert => if EventOf(s, p) in s.receipts then s else LetThrough(s, EventOf(s, p))
    case Promote => if Promotable(s.run) then EnterWriting(s, p, s.procs[p].pc.merged) else s
    case Ingest(ok) => if ok then s.(written := s.written + [s.procs[p].pc.run]) else s.(lost := true)
    case SetOutcome =>
      var e, outcome := EventOf(s, p), s.procs[p].pc.outcome;
      s.(receipts := s.receipts[e := outcome],
         failed := if outcome == ReceiptOutcome.FAILED then s.failed[e := Failures(s, e) + 1] else s.failed)
    case _ => s
  }

  function RoleOf(s: State, p: Pid, step: Step): Role
    requires Enabled(s, p, step)
  {
    match step
    case Spawn(role) => role
    case _ => s.procs[p].role
  }

  function After(s: State, p: Pid, step: Step): State
    requires Enabled(s, p, step)
  {
    Stored(s, p, step).(procs := s.procs[p := Proc(RoleOf(s, p, step), Next(s, p, step))])
  }

  function Do(s: State, move: (Pid, Step)): State {
    if Enabled(s, move.0, move.1) then After(s, move.0, move.1) else s
  }

  function Exec(steps: seq<(Pid, Step)>): State {
    if steps == [] then INITIAL else Do(Exec(steps[..|steps| - 1]), steps[|steps| - 1])
  }

  // ---------------------------------------------------------------- the invariant

  // Where a process stands says what it may still do to the run.
  ghost predicate ProcOk(s: State, p: Pid)
    requires p in s.procs
  {
    var q := s.procs[p];
    && (q.pc.Checking? ==> q.role == Creator)
    && (q.pc.Executing? || q.pc.Storing? ==> q.role == Creator && s.run.None?)
    && (q.pc.Receiving? || q.pc.Inserting? || q.pc.Correlating? ==> q.role.Delivery?)
    && (q.pc.Reading? || q.pc.Asking? || q.pc.Promoting? || q.pc.Losing? ==> q.role != Creator)
    && (q.pc.Promoting? ==> Terminal(q.pc.merged.status))
    && (q.pc.Writing? ==> s.writer == Some(p) && s.run == Some(q.pc.run) && s.written == [] && !s.lost)
  }

  ghost predicate OneCreator(s: State) {
    forall p, q :: p in s.procs && q in s.procs && CreatorBusy(s.procs[p]) && CreatorBusy(s.procs[q]) ==> p == q
  }

  // Terminal, claimed by a writer, and entered once are the same thing.
  ghost predicate RunOk(s: State) {
    && (s.writer.Some? <==> s.run.Some? && Terminal(s.run.value.status))
    && s.entered == (if s.writer.Some? then 1 else 0)
    && (s.written == [] || (s.run.Some? && s.written == [s.run.value] && s.writer.Some?))
    && (s.lost ==> s.writer.Some? && s.written == [])
    && WriterBusy(s)
  }

  // The writer has yet to write, or has written, or could not.
  ghost predicate WriterBusy(s: State) {
    s.writer.Some? ==> s.writer.value in s.procs && (s.procs[s.writer.value].pc.Writing? || s.written != [] || s.lost)
  }

  ghost predicate Inv(s: State) {
    && (forall p :: p in s.procs ==> ProcOk(s, p))
    && OneCreator(s)
    && RunOk(s)
  }

  // A step leaves every other process where it was.
  lemma OthersStay(s: State, p: Pid, step: Step, q: Pid)
    requires Enabled(s, p, step) && q != p
    ensures q in After(s, p, step).procs <==> q in s.procs
    ensures q in s.procs ==> After(s, p, step).procs[q] == s.procs[q]
  {
  }

  lemma StepWriterBusy(s: State, p: Pid, step: Step)
    requires RunOk(s) && Enabled(s, p, step) && (step.Spawn? || ProcOk(s, p))
    ensures WriterBusy(After(s, p, step))
  {
    if s.writer.Some? && s.writer.value != p {
      OthersStay(s, p, step, s.writer.value);
    }
  }

  lemma StepRun(s: State, p: Pid, step: Step)
    requires RunOk(s) && Enabled(s, p, step) && (step.Spawn? || ProcOk(s, p))
    ensures RunOk(After(s, p, step))
  {
    StepWriterBusy(s, p, step);
    assert After(s, p, step).writer == Stored(s, p, step).writer;
  }

  lemma OwnCreating(s: State, p: Pid, step: Step)
    requires Inv(s) && Enabled(s, p, step) && (step.Spawn? || step.Check? || step.Execute? || step.Store?)
    ensures p in After(s, p, step).procs && ProcOk(After(s, p, step), p)
  {
    assert !step.Spawn? ==> ProcOk(s, p);
  }

  lemma OwnReceiving(s: State, p: Pid, step: Step)
    requires Inv(s) && Enabled(s, p, step) && (step.Receive? || step.Insert? || step.Correlate? || step.SetOutcome?)
    ensures p in After(s, p, step).procs && ProcOk(After(s, p, step), p)
  {
    assert !step.Spawn? ==> ProcOk(s, p);
  }

  lemma OwnReading(s: State, p: Pid, step: Step)
    requires Inv(s) && Enabled(s, p, step) && (step.ReadRun? || step.ReRead? || step.ReadWinner?)
    ensures p in After(s, p, step).procs && ProcOk(After(s, p, step), p)
  {
    assert !step.Spawn? ==> ProcOk(s, p);
  }

  lemma OwnWriting(s: State, p: Pid, step: Step)
    requires Inv(s) && Enabled(s, p, step) && (step.Promote? || step.Ingest? || step.Mark?)
    ensures p in After(s, p, step).procs && ProcOk(After(s, p, step), p)
  {
    assert !step.Spawn? ==> ProcOk(s, p);
  }

  lemma StepOwn(s: State, p: Pid, step: Step)
    requires Inv(s) && Enabled(s, p, step)
    ensures p in After(s, p, step).procs && ProcOk(After(s, p, step), p)
  {
    match step
    case Spawn(_) => OwnCreating(s, p, step);
    case Check => OwnCreating(s, p, step);
    case Execute(_) => OwnCreating(s, p, step);
    case Store => OwnCreating(s, p, step);
    case Receive => OwnReceiving(s, p, step);
    case Insert => OwnReceiving(s, p, step);
    case Correlate(_) => OwnReceiving(s, p, step);
    case SetOutcome => OwnReceiving(s, p, step);
    case ReadRun(_) => OwnReading(s, p, step);
    case ReRead(_, _) => OwnReading(s, p, step);
    case ReadWinner => OwnReading(s, p, step);
    case Promote => OwnWriting(s, p, step);
    case Ingest(_) => OwnWriting(s, p, step);
    case Mark(_) => OwnWriting(s, p, step);
  }

  // What a step can do to the run, seen from another process.
  lemma StepOther(s: State, p: Pid, step: Step, q: Pid)
    requires Inv(s) && Enabled(s, p, step) && q != p && q in s.procs
    ensures ProcOk(After(s, p, step), q)
  {
    OthersStay(s, p, step, q);
    assert ProcOk(s, q);
    if step.Store? {
      assert CreatorBusy(s.procs[p]);
    }
    if step.Promote? {
      assert ProcOk(s, p);
    }
    if step.Ingest? {
      assert ProcOk(s, p);
    }
  }

  lemma StepCreators(s: State, p: Pid, step: Step)
    requires Inv(s) && Enabled(s, p, step)
    ensures OneCreator(After(s, p, step))
  {
    var r := After(s, p, step);
    forall q | q in r.procs && CreatorBusy(r.procs[q])
      ensures step.Spawn? || (q in s.procs && CreatorBusy(s.procs[q]))
    {
      if q != p {
        OthersStay(s, p, step, q);
      } else {
        assert step.Spawn? || ProcOk(s, p);
      }
    }
    if step.Spawn? {
      forall q | q in r.procs && q != p
        ensures r.procs[q] == s.procs[q]
      {
      }
    }
  }

  lemma StepInv(s: State, p: Pid, step: Step)
    requires Inv(s) && Enabled(s, p, step)
    ensures Inv(After(s, p, step))
  {
    var r := After(s, p, step);
    assert step.Spawn? || ProcOk(s, p);
    StepRun(s, p, step);
    StepCreators(s, p, step);
    StepOwn(s, p, step);
    forall q | q in r.procs
      ensures ProcOk(r, q)
    {
      if q != p {
        OthersStay(s, p, step, q);
        StepOther(s, p, step, q);
      }
    }
  }

  lemma {:induction false} ExecInv(steps: seq<(Pid, Step)>)
    ensures Inv(Exec(steps))
  {
    if steps != [] {
      ExecInv(steps[..|steps| - 1]);
      var s := Exec(steps[..|steps| - 1]);
      var (p, step) := steps[|steps| - 1];
      if Enabled(s, p, step) {
        StepInv(s, p, step);
      }
    }
  }

  // ---------------------------------------------------------------- what holds of every run of the protocol

  // The claims-writing step is entered at most once, exactly when the run
  // turned terminal, and only ever for the run as it is stored.
  lemma ClaimsAtMostOnce(steps: seq<(Pid, Step)>)
    ensures var s := Exec(steps);
      && s.entered <= 1
      && (s.entered == 1 <==> s.run.Some? && Terminal(s.run.value.status))
      && (s.written == [] || (s.run.Some? && s.written == [s.run.value]))
  {
    ExecInv(steps);
  }

  lemma TerminalStaysStep(s: State, p: Pid, step: Step)
    requires Inv(s) && Enabled(s, p, step) && s.run.Some? && Terminal(s.run.value.status)
    ensures After(s, p, step).run == s.run
    ensures s.lost ==> After(s, p, step).lost && After(s, p, step).written == []
  {
    if step.Store? || step.Ingest? {
      assert ProcOk(s, p);
    }
  }

  // Once terminal, the stored outcome never changes again, and claims that were
  // lost stay lost.
  lemma {:induction false} OutcomeFrozen(steps: seq<(Pid, Step)>, more: seq<(Pid, Step)>)
    requires Exec(steps).run.Some? && Terminal(Exec(steps).run.value.status)
    ensures Exec(steps + more).run == Exec(steps).run
    ensures Exec(steps).lost ==> Exec(steps + more).lost && Exec(steps + more).written == []
    decreases |more|
  {
    ExecInv(steps);
    if more == [] {
      assert steps + more == steps;
    } else {
      var fewer := more[..|more| - 1];
      OutcomeFrozen(steps, fewer);
      assert (steps + more)[..|steps + more| - 1] == steps + fewer;
      ExecInv(steps + fewer);
      var (p, step) := more[|more| - 1];
      if Enabled(Exec(steps + fewer), p, step) {
        TerminalStaysStep(Exec(steps + fewer), p, step);
      }
    }
  }

  // A terminal run has its claims, or is about to get them, or lost them to a
  // failed ingest; never two of these.
  lemma ClaimsAccountedFor(steps: seq<(Pid, Step)>)
    requires Exec(steps).run.Some? && Terminal(Exec(steps).run.value.status)
    ensures var s := Exec(steps);
      var writing := exists p :: p in s.procs && s.procs[p].pc.Writing?;
      && (writing || s.written == [s.run.value] || s.lost)
      && !(writing && (s.written != [] || s.lost))
      && !(s.written != [] && s.lost)
  {
    ExecInv(steps);
    var s := Exec(steps);
    forall p | p in s.procs && s.procs[p].pc.Writing?
      ensures s.written == [] && !s.lost
    {
      assert ProcOk(s, p);
    }
  }

  // Some step of the process changed the run or its claims.
  ghost predicate HadEffect(steps: seq<(Pid, Step)>, p: Pid) {
    steps != [] &&
    var s, r := Exec(steps[..|steps| - 1]), Exec(steps);
    HadEffect(steps[..|steps| - 1], p) || (steps[|steps| - 1].0 == p && (r.run != s.run || r.written != s.written))
  }

  lemma StepEffect(s: State, p: Pid, step: Step)
    requires Inv(s) && Enabled(s, p, step) && !step.Spawn? && s.procs[p].role != Creator
    ensures var r := After(s, p, step);
      && (r.run != s.run || r.written != s.written ==> r.writer == Some(p))
      && (r.writer == Some(p) && s.writer != Some(p) ==> r.run != s.run)
  {
    assert ProcOk(s, p);
  }

  lemma StepWriter(s: State, p: Pid, step: Step)
    requires Inv(s) && Enabled(s, p, step)
    ensures var r := After(s, p, step);
      && (s.writer.Some? ==> r.writer == s.writer)
      && (r.writer == s.writer || r.writer == Some(p))
    ensures step.Spawn? ==> After(s, p, step).run == s.run && After(s, p, step).written == s.written
  {
    if step.Store? {
      assert ProcOk(s, p);
    }
  }

  lemma {:induction false} NoEffectUnspawned(steps: seq<(Pid, Step)>, p: Pid)
    requires p !in Exec(steps).procs
    ensures !HadEffect(steps, p)
    decreases |steps|
  {
    if steps != [] {
      var rest := steps[..|steps| - 1];
      var (q, step) := steps[|steps| - 1];
      assert Enabled(Exec(rest), q, step) ==> q in Exec(steps).procs;
      NoEffectUnspawned(rest, p);
    }
  }

  lemma WriterIsSpawned(steps: seq<(Pid, Step)>, p: Pid)
    requires Exec(steps).writer == Some(p)
    ensures p in Exec(steps).procs
  {
    ExecInv(steps);
  }

  // Some step of the process promoted the run while it had no outcome yet.
  ghost predicate WonPromotion(steps: seq<(Pid, Step)>, p: Pid) {
    steps != [] &&
    var s, (q, step) := Exec(steps[..|steps| - 1]), steps[|steps| - 1];
    WonPromotion(steps[..|steps| - 1], p) || (q == p && step == Promote && Enabled(s, p, Promote) && Promotable(s.run))
  }

  lemma StepWins(s: State, p: Pid, step: Step)
    requires Inv(s) && Enabled(s, p, step) && !step.Spawn? && s.procs[p].role != Creator
    ensures After(s, p, step).writer == Some(p) <==> s.writer == Some(p) || (step == Promote && Promotable(s.run))
  {
    assert ProcOk(s, p);
  }

  lemma {:induction false} NoPromotionUnspawned(steps: seq<(Pid, Step)>, p: Pid)
    requires p !in Exec(steps).procs
    ensures !WonPromotion(steps, p)
    decreases |steps|
  {
    if steps != [] {
      var rest := steps[..|steps| - 1];
      var (q, step) := steps[|steps| - 1];
      assert Enabled(Exec(rest), q, step) ==> q in Exec(steps).procs;
      NoPromotionUnspawned(rest, p);
    }
  }

  lemma {:induction false} WriterWon(steps: seq<(Pid, Step)>, p: Pid)
    requires p in Exec(steps).procs && Exec(steps).procs[p].role != Creator
    ensures Exec(steps).writer == Some(p) <==> WonPromotion(steps, p)
  {
    if steps != [] {
      var rest := steps[..|steps| - 1];
      var (q, step) := steps[|steps| - 1];
      var s := Exec(rest);
      ExecInv(rest);
      if p !in s.procs {
        NoPromotionUnspawned(rest, p);
        if s.writer == Some(p) {
          WriterIsSpawned(rest, p);
        }
      } else {
        if q != p && Enabled(s, q, step) {
          OthersStay(s, q, step, p);
        }
        WriterWon(rest, p);
      }
      if Enabled(s, q, step) {
        StepWriter(s, q, step);
        if q == p && !step.Spawn? {
          StepWins(s, p, step);
        }
      }
    }
  }

  lemma {:induction false} WriterHadEffect(steps: seq<(Pid, Step)>, p: Pid)
    requires p in Exec(steps).procs && Exec(steps).procs[p].role != Creator
    ensures HadEffect(steps, p) <==> Exec(steps).writer == Some(p)
  {
    if steps != [] {
      var rest := steps[..|steps| - 1];
      var (q, step) := steps[|steps| - 1];
      var s := Exec(rest);
      ExecInv(rest);
      if p !in s.procs {
        NoEffectUnspawned(rest, p);
        if s.writer == Some(p) {
          WriterIsSpawned(rest, p);
        }
      } else {
        if q != p && Enabled(s, q, step) {
          OthersStay(s, q, step, p);
        }
        WriterHadEffect(rest, p);
      }
      if Enabled(s, q, step) {
        StepWriter(s, q, step);
        if q == p && !step.Spawn? {
          StepEffect(s, p, step);
        }
      }
    }
  }

  // A delivery or poll had an effect on the run or its claims exactly when it
  // won the promotion, whatever it reports in the end. So a delivery recorded as
  // failed had none exactly when it failed before promoting.
  lemma EffectIffPromoted(steps: seq<(Pid, Step)>, p: Pid)
    requires p in Exec(steps).procs && Exec(steps).procs[p].role != Creator
    ensures HadEffect(steps, p) <==> WonPromotion(steps, p)
  {
    WriterHadEffect(steps, p);
    WriterWon(steps, p);
  }

  // ---------------------------------------------------------------- receipts

  predicate PastReceipt(pc: Pc) {
    !pc.Receiving? && !pc.Inserting? && !pc.Done?
  }

  ghost predicate ReceiptOk(s: State, p: Pid)
    requires p in s.procs
  {
    var q := s.procs[p];
    q.role.Delivery? && PastReceipt(q.pc) ==> q.role.event in s.receipts
  }

  ghost predicate EventOk(s: State, e: EventId) {
    && (e in s.receipts <==> Passes(s, e) >= 1)
    && Passes(s, e) <= Failures(s, e) + (if RecordedFailed(s, e) then 0 else 1)
  }

  ghost predicate Receipts(s: State) {
    && (forall p :: p in s.procs ==> ReceiptOk(s, p))
    && forall e :: EventOk(s, e)
  }

  lemma StepEvent(s: State, p: Pid, step: Step, e: EventId)
    requires EventOk(s, e) && Enabled(s, p, step) && (step.Spawn? || (ReceiptOk(s, p) && ProcOk(s, p)))
    ensures EventOk(After(s, p, step), e)
    ensures e in s.receipts ==> e in After(s, p, step).receipts
  {
  }

  lemma StepReceiptOwn(s: State, p: Pid, step: Step)
    requires Inv(s) && Receipts(s) && Enabled(s, p, step)
    ensures p in After(s, p, step).procs && ReceiptOk(After(s, p, step), p)
  {
    if !step.Spawn? {
      assert ReceiptOk(s, p) && ProcOk(s, p);
      assert EventOk(s, EventOf(s, p));
    }
  }

  lemma StepReceipts(s: State, p: Pid, step: Step)
    requires Inv(s) && Receipts(s) && Enabled(s, p, step)
    ensures Receipts(After(s, p, step))
  {
    var r := After(s, p, step);
    forall e
      ensures EventOk(r, e)
    {
      assert EventOk(s, e) && (step.Spawn? || (ReceiptOk(s, p) && ProcOk(s, p)));
      StepEvent(s, p, step, e);
    }
    forall q | q in r.procs
      ensures ReceiptOk(r, q)
    {
      if q == p {
        StepReceiptOwn(s, p, step);
      } else {
        OthersStay(s, p, step, q);
        assert ReceiptOk(s, q);
        if r.procs[q].role.Delivery? {
          var e := r.procs[q].role.event;
          assert EventOk(s, e) && (step.Spawn? || (ReceiptOk(s, p) && ProcOk(s, p)));
          StepEvent(s, p, step, e);
        }
      }
    }
  }

  lemma {:induction false} ExecReceipts(steps: seq<(Pid, Step)>)
    ensures Receipts(Exec(steps))
  {
    if steps != [] {
      ExecReceipts(steps[..|steps| - 1]);
      ExecInv(steps[..|steps| - 1]);
      var s := Exec(steps[..|steps| - 1]);
      var (p, step) := steps[|steps| - 1];
      if Enabled(s, p, step) {
        StepReceipts(s, p, step);
      }
    }
  }

  // However often an event id is delivered, and however the deliveries
  // interleave, one is let through, and one more for each recorded failure.
  lemma DuplicateDeliveryIsNoOp(steps: seq<(Pid, Step)>, e: EventId)
    ensures Passes(Exec(steps), e) <= 1 + Failures(Exec(steps), e)
    ensures e in Exec(steps).receipts <==> Passes(Exec(steps), e) >= 1
  {
    ExecReceipts(steps);
    assert EventOk(Exec(steps), e);
  }

  // ---------------------------------------------------------------- a failed receipt may hide a promotion

  ghost function Play(s: State, moves: seq<(Pid, Step)>): State
    decreases |moves|
  {
    if moves == [] then s else Play(Do(s, moves[0]), moves[1..])
  }

  lemma {:induction false} PlayExec(steps: seq<(Pid, Step)>, moves: seq<(Pid, Step)>)
    ensures Exec(steps + moves) == Play(Exec(steps), moves)
    decreases |moves|
  {
    if moves == [] {
      assert steps + moves == steps;
    } else {
      assert steps + moves == (steps + [moves[0]]) + moves[1..];
      assert (steps + [moves[0]])[..|steps|] == steps;
      PlayExec(steps + [moves[0]], moves[1..]);
    }
  }

  const QUEUED_RUN := CallRun(QUEUED, None, None, None, Null)
  const FINISHED_RUN := CallRun(COMPLETED, None, Some(1), None, Null)
  const EVENT: EventId := "e"

  function Creation(): seq<(Pid, Step)> {
    [(0, Spawn(Creator)), (0, Check), (0, Execute(Some(QUEUED_RUN))), (0, Store)]
  }

  // Delivered, promoted, and then the ingest failed.
  function FirstDelivery(): seq<(Pid, Step)> {
    [(1, Spawn(Delivery(EVENT, false))), (1, Receive), (1, Insert), (1, Correlate(true))]
  }

  function Promotion(p: Pid): seq<(Pid, Step)> {
    [(p, ReadRun(false)), (p, ReRead(Some(FINISHED_RUN), 1)), (p, Promote)]
  }

  lemma Play2(s: State, a: (Pid, Step), b: (Pid, Step))
    ensures Play(s, [a, b]) == Do(Do(s, a), b)
  {
    assert [a, b][1..] == [b] && [b][1..] == [];
    assert Play(Do(s, a), [b]) == Play(Do(Do(s, a), b), []);
  }

  lemma Play3(s: State, a: (Pid, Step), b: (Pid, Step), c: (Pid, Step))
    ensures Play(s, [a, b, c]) == Do(Do(Do(s, a), b), c)
  {
    assert [a, b, c][1..] == [b, c];
    Play2(Do(s, a), b, c);
  }

  lemma Play4(s: State, a: (Pid, Step), b: (Pid, Step), c: (Pid, Step), d: (Pid, Step))
    ensures Play(s, [a, b, c, d]) == Do(Do(Do(Do(s, a), b), c), d)
  {
    assert [a, b, c, d][1..] == [b, c, d];
    Play3(Do(s, a), b, c, d);
  }

  ghost function Creating(pc: Pc): State {
    INITIAL.(procs := map[0 := Proc(Creator, pc)])
  }

  lemma CreationAsks()
    ensures Do(Do(INITIAL, (0, Spawn(Creator))), (0, Check)) == Creating(Executing)
  {
    assert Do(INITIAL, (0, Spawn(Creator))) == Creating(Checking);
    assert Do(Creating(Checking), (0, Check)) == Creating(Executing);
  }

  lemma CreationStores()
    ensures Do(Do(Creating(Executing), (0, Execute(Some(QUEUED_RUN)))), (0, Store))
         == Creating(Ending(NOT_TERMINAL)).(run := Some(QUEUED_RUN))
  {
    assert Do(Creating(Executing), (0, Execute(Some(QUEUED_RUN)))) == Creating(Storing(QUEUED_RUN));
    assert Do(Creating(Storing(QUEUED_RUN)), (0, Store)) == Creating(Ending(NOT_TERMINAL)).(run := Some(QUEUED_RUN));
  }

  lemma AfterCreation()
    ensures var s := Exec(Creation());
      s.run == Some(QUEUED_RUN) && s.procs.Keys == {0} && s.receipts == map[] && s.written == [] && !s.lost
  {
    assert [] + Creation() == Creation();
    PlayExec([], Creation());
    Play4(INITIAL, (0, Spawn(Creator)), (0, Check), (0, Execute(Some(QUEUED_RUN))), (0, Store));
    CreationAsks();
    CreationStores();
  }

  ghost function Delivering(s: State, pc: Pc): State {
    s.(procs := s.procs[1 := Proc(Delivery(EVENT, false), pc)])
  }

  lemma Received(s: State)
    requires 1 !in s.procs && EVENT !in s.receipts
    ensures Do(Do(s, (1, Spawn(Delivery(EVENT, false)))), (1, Receive)) == Delivering(s, Inserting)
  {
    assert Do(s, (1, Spawn(Delivery(EVENT, false)))) == Delivering(s, Receiving);
    assert Do(Delivering(s, Receiving), (1, Receive)) == Delivering(s, Inserting);
  }

  lemma Inserted(s: State)
    requires s.run.Some? && EVENT !in s.receipts
    ensures Do(Do(Delivering(s, Inserting), (1, Insert)), (1, Correlate(true)))
        == Delivering(LetThrough(s, EVENT), Reading)
  {
    assert Do(Delivering(s, Inserting), (1, Insert)) == Delivering(LetThrough(s, EVENT), Correlating);
    assert Do(Delivering(LetThrough(s, EVENT), Correlating), (1, Correlate(true)))
        == Delivering(LetThrough(s, EVENT), Reading);
  }

  lemma Delivered(s: State)
    requires s.run.Some? && 1 !in s.procs && s.receipts == map[]
    ensures var r := Play(s, FirstDelivery());
      && r.run == s.run && r.written == s.written && r.lost == s.lost && r.receipts == map[EVENT := RECEIVED]
      && r.procs == s.procs[1 := Proc(Delivery(EVENT, false), Reading)]
  {
    Play4(s, (1, Spawn(Delivery(EVENT, false))), (1, Receive), (1, Insert), (1, Correlate(true)));
    Received(s);
    Inserted(s);
  }

  lemma Promoted(s: State)
    requires s.run == Some(QUEUED_RUN) && 1 in s.procs && s.procs[1] == Proc(Delivery(EVENT, false), Reading)
    ensures var r := Play(s, Promotion(1));
      && r.run == Some(FINISHED_RUN) && r.written == s.written && r.lost == s.lost && r.receipts == s.receipts
      && r.procs == s.procs[1 := Proc(Delivery(EVENT, false), Writing(FINISHED_RUN))]
  {
    Play3(s, (1, ReadRun(false)), (1, ReRead(Some(FINISHED_RUN), 1)), (1, Promote));
    assert Do(s, (1, ReadRun(false))) == Delivering(s, Asking(QUEUED_RUN));
    PromotedRest(s);
  }

  lemma PromotedRest(s: State)
    requires s.run == Some(QUEUED_RUN) && 1 in s.procs
    ensures var r := Do(Do(Delivering(s, Asking(QUEUED_RUN)), (1, ReRead(Some(FINISHED_RUN), 1))), (1, Promote));
      && r.run == Some(FINISHED_RUN) && r.written == s.written && r.lost == s.lost && r.receipts == s.receipts
      && r.procs == s.procs[1 := Proc(Delivery(EVENT, false), Writing(FINISHED_RUN))]
  {
    assert Do(Delivering(s, Asking(QUEUED_RUN)), (1, ReRead(Some(FINISHED_RUN), 1)))
        == Delivering(s, Promoting(FINISHED_RUN));
    var r := Do(Delivering(s, Promoting(FINISHED_RUN)), (1, Promote));
    assert r.procs == s.procs[1 := Proc(Delivery(EVENT, false), Writing(FINISHED_RUN))];
  }

  lemma IngestFailed(s: State)
    requires 1 in s.procs && s.procs[1] == Proc(Delivery(EVENT, false), Writing(FINISHED_RUN))
    ensures var r := Play(s, [(1, Ingest(false)), (1, SetOutcome)]);
      r.run == s.run && r.written == s.written && r.lost && r.receipts == s.receipts[EVENT := ReceiptOutcome.FAILED]
          && r.procs.Keys == s.procs.Keys
  {
    Play2(s, (1, Ingest(false)), (1, SetOutcome));
    var s1 := Do(s, (1, Ingest(false)));
    assert s1.procs[1].pc == Ending(ReceiptOutcome.FAILED);
    assert EventOf(s1, 1) == EVENT;
  }

  function LostRun(): seq<(Pid, Step)> {
    ((Creation() + FirstDelivery()) + Promotion(1)) + [(1, Ingest(false)), (1, SetOutcome)]
  }

  // The receiver's documentation says a failed receipt means that no side effect
  // has happened yet. After this run the receipt is failed, yet the run is
  // terminal and its claims are gone for good, whatever is delivered later.
  lemma FailedReceiptHidesPromotion(more: seq<(Pid, Step)>)
    ensures var s := Exec(LostRun());
        EVENT in s.receipts && s.receipts[EVENT] == ReceiptOutcome.FAILED && s.run == Some(FINISHED_RUN)
    ensures Exec(LostRun() + more).written == [] && Exec(LostRun() + more).run == Some(FINISHED_RUN)
  {
    AfterCreation();
    PlayExec(Creation(), FirstDelivery());
    Delivered(Exec(Creation()));
    PlayExec(Creation() + FirstDelivery(), Promotion(1));
    Promoted(Exec(Creation() + FirstDelivery()));
    PlayExec((Creation() + FirstDelivery()) + Promotion(1), [(1, Ingest(false)), (1, SetOutcome)]);
    IngestFailed(Exec((Creation() + FirstDelivery()) + Promotion(1)));
    assert Exec(LostRun()).lost;
    OutcomeFrozen(LostRun(), more);
  }

  // ---------------------------------------------------------------- the run table

  function RowOf(rows: map<Id, CallRun>, id: Id): Option<CallRun> {
    if id in rows then Some(rows[id]) else None
  }

  // The conditional update: what its caller gets back, and the table after it.
  function TryPromote(rows: map<Id, CallRun>, id: Id, model: CallRun): (Option<CallRun>, map<Id, CallRun>) {
    if Promotable(RowOf(rows, id)) then (Some(model), rows[id := model]) else (None, rows)
  }

  // The table after any number of them, by any callers, on any rows.
  function PromoteEach(rows: map<Id, CallRun>, calls: seq<(Id, CallRun)>): map<Id, CallRun> {
    if calls == [] then rows else
      var n := |calls| - 1;
      TryPromote(PromoteEach(rows, calls[..n]), calls[n].0, calls[n].1).1
  }

  function Won(rows: map<Id, CallRun>, calls: seq<(Id, CallRun)>, k: nat): Option<CallRun>
    requires k < |calls|
  {
    TryPromote(PromoteEach(rows, calls[..k]), calls[k].0, calls[k].1).0
  }

  predicate Called(calls: seq<(Id, CallRun)>, id: Id) {
    exists k :: 0 <= k < |calls| && calls[k].0 == id
  }

  lemma {:induction false} PromotableOnce(rows: map<Id, CallRun>, calls: seq<(Id, CallRun)>, id: Id)
    requires forall k :: 0 <= k < |calls| ==> Terminal(calls[k].1.status)
    ensures Promotable(RowOf(PromoteEach(rows, calls), id)) <==> Promotable(RowOf(rows, id)) && !Called(calls, id)
    ensures !Called(calls, id) ==> RowOf(PromoteEach(rows, calls), id) == RowOf(rows, id)
  {
    if calls != [] {
      var n := |calls| - 1;
      PromotableOnce(rows, calls[..n], id);
      assert Called(calls, id) <==> Called(calls[..n], id) || calls[n].0 == id by {
        if k :| 0 <= k < |calls[..n]| && calls[..n][k].0 == id {
          assert calls[k].0 == id;
        }
        if k :| 0 <= k < |calls| && calls[k].0 == id && k < n {
          assert calls[..n][k].0 == id;
        }
      }
    }
  }

  lemma {:induction false} RowKept(rows: map<Id, CallRun>, calls: seq<(Id, CallRun)>, k: nat)
    requires k < |calls| && Won(rows, calls, k).Some?
    requires forall i :: 0 <= i < |calls| ==> Terminal(calls[i].1.status)
    ensures RowOf(PromoteEach(rows, calls), calls[k].0) == Some(calls[k].1)
    decreases |calls|
  {
    var n := |calls| - 1;
    if k < n {
      assert calls[..n][..k] == calls[..k];
      RowKept(rows, calls[..n], k);
    }
  }

  // However many finalizers race to promote rows to terminal runs: a caller wins
  // exactly when its row was waiting for an outcome and nobody called before it,
  // and what it wrote is what the row holds ever after.
  lemma FirstPromotionWins(rows: map<Id, CallRun>, calls: seq<(Id, CallRun)>, k: nat)
    requires k < |calls| && forall i :: 0 <= i < |calls| ==> Terminal(calls[i].1.status)
    ensures Won(rows, calls, k).Some? <==>
      Promotable(RowOf(rows, calls[k].0)) && forall j :: 0 <= j < k ==> calls[j].0 != calls[k].0
    ensures Won(rows, calls, k).Some? ==> RowOf(PromoteEach(rows, calls), calls[k].0) == Some(calls[k].1)
    ensures !Promotable(RowOf(rows, calls[k].0)) ==>
        RowOf(PromoteEach(rows, calls), calls[k].0) == RowOf(rows, calls[k].0)
  {
    var id := calls[k].0;
    PromotableOnce(rows, calls[..k], id);
    assert Called(calls[..k], id) <==> exists j :: 0 <= j < k && calls[j].0 == id by {
      assert forall j :: 0 <= j < k ==> calls[..k][j] == calls[j];
    }
    if Won(rows, calls, k).Some? {
      RowKept(rows, calls, k);
    }
    if !Promotable(RowOf(rows, id)) {
      NeverPromoted(rows, calls, id);
    }
  }

  lemma {:induction false} NeverPromoted(rows: map<Id, CallRun>, calls: seq<(Id, CallRun)>, id: Id)
    requires !Promotable(RowOf(rows, id))
    ensures RowOf(PromoteEach(rows, calls), id) == RowOf(rows, id)
  {
    if calls != [] {
      NeverPromoted(rows, calls[..|calls| - 1], id);
    }
  }

  class CallRunRepository {
    var rows: map<Id, CallRun>

    constructor ()
      ensures rows == map[]
    {
      rows := map[];
    }

    method Get(id: Id) returns (r: Option<CallRun>)
      ensures r == RowOf(rows, id)
    {
      r := if id in rows then Some(rows[id]) else None;
    }

    method Add(id: Id, run: CallRun) returns (ok: bool)
      modifies this
      ensures ok <==> id !in old(rows)
      ensures rows == if ok then old(rows)[id := run] else old(rows)
    {
      ok := id !in rows;
      if ok {
        rows := rows[id := run];
      }
    }

    // One conditional write: of all callers, the one that finds the row not
    // terminal gets it back; the others get nothing and change nothing.
    method PromoteToTerminal(id: Id, model: CallRun) returns (r: Option<CallRun>)
      modifies this
      ensures (r, rows) == TryPromote(old(rows), id, model)
    {
      if id in rows && !Terminal(rows[id].status) {
        rows := rows[id := model];
        return Some(model);
      }
      r := None;
    }
  }
}
