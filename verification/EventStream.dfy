// One subscriber of a mission's activity log: subscribe, then replay, then
// follow the queue, while events are emitted, connections drop and the client
// comes back with the last event id it received.
module EventStream {

  type Seq = nat

  // Subscribed: the queue is registered, the log not read yet. Streaming: some
  // replayed rows are still to send, and then the queue.
  datatype Phase =
    | Offline
    | Subscribed
    | Streaming(rest: seq<Seq>)

  // The log, as sequence numbers: a row gets its number when it is inserted, is
  // visible once committed, and is then published to the queues of that moment.
  // On the wire is what was sent and not received; `after` is the last event id
  // of the client.
  datatype State = State(
    highest: Seq,
    open: set<Seq>,
    committed: set<Seq>,
    published: set<Seq>,
    phase: Phase,
    queue: seq<Seq>,
    lastSent: Seq,
    wire: seq<Seq>,
    received: seq<Seq>,
    after: Seq)

  datatype Step =
    | Insert
    | Commit(e: Seq)
    | Abort(e: Seq)
    | Publish(e: Seq)
    | Connect
    | Replay
    | SendReplayed
    | Take
    | Receive
    | Disconnect

  function Initial(start: Seq): State {
    State(0, {}, {}, {}, Offline, [], start, [], [], start)
  }

  predicate Enabled(s: State, step: Step) {
    match step
    case Insert => true
    case Commit(e) => e in s.open
    case Abort(e) => e in s.open
    case Publish(e) => e in s.committed && e !in s.published
    case Connect => s.phase == Offline
    case Replay => s.phase == Subscribed
    case SendReplayed => s.phase.Streaming? && s.phase.rest != []
    case Take => s.phase == Streaming([]) && s.queue != []
    case Receive => s.wire != []
    case Disconnect => s.phase != Offline
  }

  function Send(s: State, e: Seq): State {
    s.(lastSent := e, wire := s.wire + [e])
  }

  function After(s: State, step: Step): State
    requires Enabled(s, step)
  {
    match step
    case Insert => s.(highest := s.highest + 1, open := s.open + {s.highest + 1})
    case Commit(e) => s.(open := s.open - {e}, committed := s.committed + {e})
    case Abort(e) => s.(open := s.open - {e})
    case Publish(e) =>
      s.(published := s.published + {e}, queue := if s.phase == Offline then s.queue else s.queue + [e])
    case Connect => s.(phase := Subscribed, queue := [], lastSent := s.after, wire := [])
    case Replay => s.(phase := Streaming(Rows(s.committed, s.after)))
    case SendReplayed => Send(s.(phase := Streaming(s.phase.rest[1..])), s.phase.rest[0])
    case Take =>
      var e := s.queue[0];
      var t := s.(queue := s.queue[1..]);
      if e <= s.lastSent then t else Send(t, e)
    case Receive => s.(received := s.received + [s.wire[0]], after := s.wire[0], wire := s.wire[1..])
    case Disconnect => s.(phase := Offline, queue := [], wire := [])
  }

  function Do(s: State, step: Step): State {
    if Enabled(s, step) then After(s, step) else s
  }

  function Exec(start: Seq, steps: seq<Step>): State {
    if steps == [] then Initial(start) else Do(Exec(start, steps[..|steps| - 1]), steps[|steps| - 1])
  }

  // ---------------------------------------------------------------- the log read

  ghost predicate Increasing(s: seq<Seq>) {
    forall i, j :: 0 <= i < j < |s| ==> s[i] < s[j]
  }

  ghost predicate Above(s: seq<Seq>, floor: Seq) {
    forall i :: 0 <= i < |s| ==> floor < s[i]
  }

  function Elements(s: seq<Seq>): set<Seq> {
    set e | e in s
  }

  lemma {:induction false} LeastExists(rows: set<Seq>, x: Seq)
    requires x in rows
    ensures exists m :: m in rows && forall e :: e in rows ==> m <= e
    decreases x
  {
    if y :| y in rows && y < x {
      LeastExists(rows, y);
    }
  }

  function Least(rows: set<Seq>): (m: Seq)
    requires rows != {}
    ensures m in rows && forall e :: e in rows ==> m <= e
  {
    var x :| x in rows;
    LeastExists(rows, x);
    var m :| m in rows && forall e :: e in rows ==> m <= e;
    m
  }

  function InOrder(rows: set<Seq>): (r: seq<Seq>)
    ensures Increasing(r)
    ensures forall e :: e in r <==> e in rows
    decreases |rows|
  {
    if rows == {} then [] else
      var m := Least(rows);
      var rest := InOrder(rows - {m});
      assert forall i :: 0 <= i < |rest| ==> rest[i] in rows - {m};
      [m] + rest
  }

  function Later(committed: set<Seq>, after: Seq): set<Seq> {
    set e | e in committed && e > after
  }

  // The rows after a sequence number, in order.
  function Rows(committed: set<Seq>, after: Seq): (r: seq<Seq>)
    ensures Increasing(r) && Above(r, after)
    ensures forall e :: e in r <==> e in committed && e > after
  {
    var r := InOrder(Later(committed, after));
    assert forall i :: 0 <= i < |r| ==> r[i] in Later(committed, after);
    r
  }

  // ---------------------------------------------------------------- whatever the interleaving

  function Rest(s: State): seq<Seq> {
    if s.phase.Streaming? then s.phase.rest else []
  }

  function Seen(s: State): seq<Seq> {
    s.received + s.wire
  }

  // Ids go out strictly increasing, from the client's last event id on.
  ghost predicate Monotone(s: State, start: Seq) {
    && Increasing(Seen(s)) && Above(Seen(s), start)
    && s.after == (if s.received == [] then start else s.received[|s.received| - 1])
    && (s.phase != Offline ==> s.lastSent == (if Seen(s) == [] then start else Seen(s)[|Seen(s)| - 1]))
    && (s.phase == Offline || s.phase == Subscribed ==> s.wire == [])
    && Increasing(Rest(s)) && Above(Rest(s), s.lastSent)
  }

  lemma OneMoreSeen(seen: seq<Seq>, e: Seq, start: Seq)
    requires Increasing(seen) && Above(seen, start) && (if seen == [] then start else seen[|seen| - 1]) < e
    ensures Increasing(seen + [e]) && Above(seen + [e], start)
  {
  }

  lemma SendMonotone(s: State, start: Seq, e: Seq)
    requires Monotone(s, start) && s.phase.Streaming? && s.lastSent < e && Above(Rest(s), e)
    ensures Monotone(Send(s, e), start)
  {
    assert Seen(Send(s, e)) == Seen(s) + [e];
    OneMoreSeen(Seen(s), e, start);
  }

  lemma ReceiveMonotone(s: State, start: Seq)
    requires Monotone(s, start) && s.wire != []
    ensures Monotone(After(s, Receive), start)
  {
    assert Seen(After(s, Receive)) == Seen(s);
  }

  lemma SendReplayedMonotone(s: State, start: Seq)
    requires Monotone(s, start) && Enabled(s, SendReplayed)
    ensures Monotone(After(s, SendReplayed), start)
  {
    var t := s.(phase := Streaming(s.phase.rest[1..]));
    assert Seen(t) == Seen(s);
    SendMonotone(t, start, s.phase.rest[0]);
  }

  lemma TakeMonotone(s: State, start: Seq)
    requires Monotone(s, start) && Enabled(s, Take)
    ensures Monotone(After(s, Take), start)
  {
    var t := s.(queue := s.queue[1..]);
    assert Seen(t) == Seen(s);
    if s.queue[0] > s.lastSent {
      SendMonotone(t, start, s.queue[0]);
    }
  }

  lemma DropMonotone(s: State, start: Seq, step: Step)
    requires Monotone(s, start) && Enabled(s, step) && (step == Connect || step == Disconnect)
    ensures Monotone(After(s, step), start)
  {
    assert Seen(After(s, step)) == s.received == Seen(s)[..|s.received|];
  }

  lemma StepMonotone(s: State, step: Step, start: Seq)
    requires Monotone(s, start) && Enabled(s, step)
    ensures Monotone(After(s, step), start)
  {
    match step
    case SendReplayed => SendReplayedMonotone(s, start);
    case Take => TakeMonotone(s, start);
    case Receive => ReceiveMonotone(s, start);
    case Connect => DropMonotone(s, start, step);
    case Disconnect => DropMonotone(s, start, step);
    case _ => assert Seen(After(s, step)) == Seen(s);
  }

  lemma {:induction false} ExecMonotone(start: Seq, steps: seq<Step>)
    ensures Monotone(Exec(start, steps), start)
  {
    if steps != [] {
      ExecMonotone(start, steps[..|steps| - 1]);
      if Enabled(Exec(start, steps[..|steps| - 1]), steps[|steps| - 1]) {
        StepMonotone(Exec(start, steps[..|steps| - 1]), steps[|steps| - 1], start);
      }
    }
  }

  // Across all connections, the client sees strictly increasing ids: nothing
  // twice, nothing out of order, nothing it said it had.
  lemma NeverTwice(start: Seq, steps: seq<Step>)
    ensures Increasing(Exec(start, steps).received) && Above(Exec(start, steps).received, start)
  {
    ExecMonotone(start, steps);
    var s := Exec(start, steps);
    assert s.received == Seen(s)[..|s.received|];
  }

  // ---------------------------------------------------------------- when events appear in order

  // Commits and publishes follow the sequence.
  predicate Orderly(s: State, step: Step) {
    match step
    case Commit(e) => forall x :: x in s.open ==> e <= x
    case Publish(e) => forall x :: x in s.committed && x !in s.published ==> e <= x
    case _ => true
  }

  ghost predicate LogInOrder(s: State) {
    && s.published <= s.committed
    && (forall x :: x in s.open || x in s.committed ==> x <= s.highest)
    && (forall x, y :: x in s.open && y in s.committed ==> y < x)
    && (forall x, y :: x in s.committed && x !in s.published && y in s.published ==> y < x)
  }

  lemma StepLog(s: State, step: Step)
    requires LogInOrder(s) && Enabled(s, step) && Orderly(s, step)
    ensures LogInOrder(After(s, step))
  {
  }

  // Everything up to what was last sent has been sent.
  ghost predicate NoGap(s: State, start: Seq) {
    forall e :: e in s.committed && start < e && e <= (if s.phase == Offline then s.after else s.lastSent) ==>
        e in Seen(s)
  }

  // Everything after it is still to be replayed, queued, or published.
  ghost predicate Coming(s: State) {
    s.phase.Streaming? ==> forall e :: e in s.committed && e > s.lastSent ==>
        e in Rest(s) || e in s.queue || e !in s.published
  }

  // The queue is in order, and what the replay missed comes after all of it.
  ghost predicate QueueOk(s: State) {
    && (s.phase == Offline ==> s.queue == [])
    && Increasing(s.queue)
    && (forall e :: e in s.queue ==> e in s.published)
    && (forall e :: e in Seen(s) || e in Rest(s) ==> e in s.committed)
    && (s.phase == Subscribed ==> s.lastSent == s.after)
    && (forall x, r :: x in s.committed && x > s.lastSent && x !in Rest(s) && r in Rest(s) ==> r < x)
  }

  ghost predicate Complete(s: State, start: Seq) {
    LogInOrder(s) && Monotone(s, start) && NoGap(s, start) && Coming(s) && QueueOk(s)
  }

  lemma EmitComplete(s: State, step: Step, start: Seq)
    requires Complete(s, start) && Enabled(s, step) && Orderly(s, step) && (step.Insert? || step.Abort?)
    ensures Complete(After(s, step), start)
  {
    StepLog(s, step);
    StepMonotone(s, step, start);
  }

  // A row that becomes visible is newer than everything sent or about to be replayed.
  lemma CommitComplete(s: State, e: Seq, start: Seq)
    requires Complete(s, start) && Enabled(s, Commit(e)) && Orderly(s, Commit(e))
    ensures Complete(After(s, Commit(e)), start)
  {
    StepLog(s, Commit(e));
    StepMonotone(s, Commit(e), start);
    assert forall y :: y in s.committed ==> y < e;
    var last := if s.phase == Offline then s.after else s.lastSent;
    if Seen(s) != [] {
      assert Seen(s)[|Seen(s)| - 1] in Seen(s);
    }
    if s.received != [] {
      assert Seen(s)[|s.received| - 1] == s.received[|s.received| - 1];
      assert s.received[|s.received| - 1] in Seen(s);
    }
    assert last < e || last == start;
  }

  lemma PublishComplete(s: State, e: Seq, start: Seq)
    requires Complete(s, start) && Enabled(s, Publish(e)) && Orderly(s, Publish(e))
    ensures Complete(After(s, Publish(e)), start)
  {
    StepLog(s, Publish(e));
    StepMonotone(s, Publish(e), start);
    var r := After(s, Publish(e));
    forall i | 0 <= i < |s.queue|
      ensures s.queue[i] < e
    {
      assert s.queue[i] in s.queue;
    }
    assert Seen(r) == Seen(s) && Rest(r) == Rest(s);
  }

  lemma ConnectComplete(s: State, start: Seq)
    requires Complete(s, start) && Enabled(s, Connect)
    ensures Complete(After(s, Connect), start)
  {
    StepMonotone(s, Connect, start);
    assert Seen(After(s, Connect)) == Seen(s);
  }

  lemma ReplayComplete(s: State, start: Seq)
    requires Complete(s, start) && Enabled(s, Replay)
    ensures Complete(After(s, Replay), start)
  {
    StepMonotone(s, Replay, start);
    assert Seen(After(s, Replay)) == Seen(s);
  }

  // Sending the next thing leaves nothing behind.
  lemma SendComplete(s: State, t: State, e: Seq, start: Seq)
    requires Complete(s, start) && t == Send(s.(phase := t.phase, queue := t.queue), e) && s.phase.Streaming?
        && t.phase.Streaming?
    requires e in s.committed && s.lastSent < e && Monotone(t, start)
    requires forall x :: x in s.committed && s.lastSent < x <= e ==> x == e
    requires forall x :: x in s.committed && x > e ==>
        (x in Rest(t) <==> x in Rest(s)) && (x in s.queue ==> x in t.queue)
    requires Increasing(t.queue) && forall x :: x in t.queue ==> x in s.queue
    requires forall x :: x in Rest(t) ==> x in Rest(s) && x > e
    ensures Complete(t, start)
  {
    assert Seen(t) == Seen(s) + [e];
    assert LogInOrder(t);
    forall x | x in t.committed && start < x <= t.lastSent
      ensures x in Seen(t)
    {
      assert x == e || x <= s.lastSent;
    }
  }

  lemma SendReplayedComplete(s: State, start: Seq)
    requires Complete(s, start) && Enabled(s, SendReplayed)
    ensures Complete(After(s, SendReplayed), start)
  {
    var rest := s.phase.rest;
    var t := After(s, SendReplayed);
    StepMonotone(s, SendReplayed, start);
    assert rest[0] in rest;
    forall x | x in s.committed && s.lastSent < x <= rest[0]
      ensures x == rest[0]
    {
      if x in rest {
        var i :| 0 <= i < |rest| && rest[i] == x;
      }
    }
    forall x | x in rest[1..]
      ensures x in rest && x > rest[0]
    {
    }
    forall x | x in rest && x > rest[0]
      ensures x in rest[1..]
    {
      var i :| 0 <= i < |rest| && rest[i] == x;
      assert rest[1..][i - 1] == x;
    }
    SendComplete(s, t, rest[0], start);
  }

  lemma TakeComplete(s: State, start: Seq)
    requires Complete(s, start) && Enabled(s, Take)
    ensures Complete(After(s, Take), start)
  {
    var t := After(s, Take);
    var e := s.queue[0];
    StepMonotone(s, Take, start);
    assert e in s.queue;
    forall x | x in s.queue
      ensures x == e || (x > e && x in t.queue)
    {
      var i :| 0 <= i < |s.queue| && s.queue[i] == x;
      if i > 0 {
        assert s.queue[1..][i - 1] == x;
      }
    }
    if e > s.lastSent {
      SendComplete(s, t, e, start);
    } else {
      assert Seen(t) == Seen(s) && Rest(t) == Rest(s);
    }
  }

  lemma ReceiveComplete(s: State, start: Seq)
    requires Complete(s, start) && Enabled(s, Receive)
    ensures Complete(After(s, Receive), start)
  {
    StepMonotone(s, Receive, start);
    assert Seen(After(s, Receive)) == Seen(s);
  }

  // A dropped connection loses only what the client never acknowledged.
  lemma DisconnectComplete(s: State, start: Seq)
    requires Complete(s, start) && Enabled(s, Disconnect)
    ensures Complete(After(s, Disconnect), start)
  {
    StepMonotone(s, Disconnect, start);
    var seen := Seen(s);
    forall e | e in s.committed && start < e <= s.after
      ensures e in s.received
    {
      assert s.received != [];
      assert seen[|s.received| - 1] == s.after;
      assert s.after <= seen[|seen| - 1] == s.lastSent;
      var i :| 0 <= i < |seen| && seen[i] == e;
      assert i < |s.received|;
      assert s.received[i] == e;
    }
  }

  lemma StepComplete(s: State, step: Step, start: Seq)
    requires Complete(s, start) && Enabled(s, step) && Orderly(s, step)
    ensures Complete(After(s, step), start)
  {
    match step
    case Insert => EmitComplete(s, step, start);
    case Abort(_) => EmitComplete(s, step, start);
    case Commit(e) => CommitComplete(s, e, start);
    case Publish(e) => PublishComplete(s, e, start);
    case Connect => ConnectComplete(s, start);
    case Replay => ReplayComplete(s, start);
    case SendReplayed => SendReplayedComplete(s, start);
    case Take => TakeComplete(s, start);
    case Receive => ReceiveComplete(s, start);
    case Disconnect => DisconnectComplete(s, start);
  }

  ghost predicate AllOrderly(start: Seq, steps: seq<Step>) {
    steps != [] ==>
      var s := Exec(start, steps[..|steps| - 1]);
      AllOrderly(start, steps[..|steps| - 1]) && (Enabled(s, steps[|steps| - 1]) ==> Orderly(s, steps[|steps| - 1]))
  }

  lemma {:induction false} ExecComplete(start: Seq, steps: seq<Step>)
    requires AllOrderly(start, steps)
    ensures Complete(Exec(start, steps), start)
  {
    if steps != [] {
      ExecComplete(start, steps[..|steps| - 1]);
      if Enabled(Exec(start, steps[..|steps| - 1]), steps[|steps| - 1]) {
        StepComplete(Exec(start, steps[..|steps| - 1]), steps[|steps| - 1], start);
      }
    }
  }

  // When events appear in order, the client has every event after its first
  // last-event id up to the newest it received, exactly once, across any number
  // of disconnects.
  lemma NoGapEver(start: Seq, steps: seq<Step>)
    requires AllOrderly(start, steps)
    ensures var s := Exec(start, steps);
      && Increasing(s.received)
      && forall e :: e in s.received <==> e in s.committed && start < e <= s.after
  {
    ExecComplete(start, steps);
    NeverTwice(start, steps);
    var s := Exec(start, steps);
    var seen := Seen(s);
    forall e | e in s.received
      ensures e in s.committed && start < e <= s.after
    {
      var i :| 0 <= i < |s.received| && s.received[i] == e;
      assert seen[i] == e && e in seen;
    }
    forall e | e in s.committed && start < e <= s.after
      ensures e in s.received
    {
      AcknowledgedReceived(s, start, e);
    }
  }

  lemma AcknowledgedReceived(s: State, start: Seq, e: Seq)
    requires Complete(s, start) && e in s.committed && start < e <= s.after
    ensures e in s.received
  {
    var seen := Seen(s);
    assert s.received != [];
    assert seen[|s.received| - 1] == s.after;
    if s.phase != Offline {
      assert s.after <= seen[|seen| - 1] == s.lastSent;
    }
    var i :| 0 <= i < |seen| && seen[i] == e;
    assert i < |s.received|;
    assert s.received[i] == e;
  }

  // And once the emits are through and the stream is drained, it has them all.
  lemma EverythingArrives(start: Seq, steps: seq<Step>)
    requires AllOrderly(start, steps)
    requires var s := Exec(start, steps);
        s.phase == Streaming([]) && s.queue == [] && s.wire == [] && s.published == s.committed
    ensures forall e :: e in Exec(start, steps).received <==> e in Exec(start, steps).committed && start < e
  {
    NoGapEver(start, steps);
    ExecComplete(start, steps);
    var s := Exec(start, steps);
    forall e | e in s.committed && start < e
      ensures e <= s.after
    {
      assert s.received == Seen(s);
      assert e <= s.lastSent;
    }
  }

  // ---------------------------------------------------------------- when they do not

  lemma {:induction false} ReceivedExtends(start: Seq, steps: seq<Step>, more: seq<Step>)
    ensures Exec(start, steps).received <= Exec(start, steps + more).received
    decreases |more|
  {
    if more == [] {
      assert steps + more == steps;
    } else {
      ReceivedExtends(start, steps, more[..|more| - 1]);
      assert (steps + more)[..|steps + more| - 1] == steps + more[..|more| - 1];
    }
  }

  // An event the client was overtaken on never reaches it, on this connection
  // or any later one.
  lemma OvertakenNeverArrives(start: Seq, steps: seq<Step>, more: seq<Step>, e: Seq)
    requires e !in Exec(start, steps).received && e <= Exec(start, steps).after
    ensures e !in Exec(start, steps + more).received
  {
    ReceivedExtends(start, steps, more);
    NeverTwice(start, steps + more);
    ExecMonotone(start, steps);
    var a, b := Exec(start, steps).received, Exec(start, steps + more).received;
    forall i | 0 <= i < |b|
      ensures b[i] != e
    {
      if i < |a| {
        assert b[i] == a[i];
      } else if a != [] {
        assert b[|a| - 1] == a[|a| - 1] == Exec(start, steps).after < b[i];
      }
    }
  }

  // The client is missing an event older than the last one it received.
  ghost predicate Gap(s: State, start: Seq) {
    exists e :: e in s.committed && start < e <= s.after && e !in s.received
  }

  // A row becomes visible behind what the client has, or the client receives an
  // event with a visible one before it that it did not get.
  ghost predicate Overtakes(s: State, start: Seq, step: Step)
    requires Enabled(s, step)
  {
    match step
    case Commit(e) => start < e <= s.after
    case Receive => exists x :: x in s.committed && s.after < x < s.wire[0]
    case _ => false
  }

  // What is sent or to be sent has been committed, and nothing is committed twice.
  ghost predicate Known(s: State) {
    && (forall e :: e in s.open || e in s.committed ==> e <= s.highest)
    && s.open !! s.committed && s.published <= s.committed
    && (forall e :: e in s.received || e in s.wire || e in Rest(s) || e in s.queue ==> e in s.committed)
  }

  lemma StepKnown(s: State, step: Step)
    requires Known(s) && Enabled(s, step)
    ensures Known(After(s, step))
  {
    match step
    case Take => assert s.queue[0] in s.queue;
    case SendReplayed => assert s.phase.rest[0] in s.phase.rest;
    case Receive => assert s.wire[0] in s.wire;
    case _ =>
  }

  // What comes next off the wire is newer than everything received.
  lemma NextIsNewer(s: State, start: Seq)
    requires Monotone(s, start)
    ensures forall e :: e in s.received ==> start < e <= s.after
    ensures s.wire != [] ==> s.wire[0] > s.after >= start
  {
    var seen := Seen(s);
    forall e | e in s.received
      ensures start < e <= s.after
    {
      var i :| 0 <= i < |s.received| && s.received[i] == e;
      assert seen[i] == e && seen[|s.received| - 1] == s.after;
    }
    if s.received != [] {
      assert seen[|s.received| - 1] == s.after;
    }
    if s.wire != [] {
      assert seen[|s.received|] == s.wire[0];
    }
  }

  lemma ReceiveGap(s: State, start: Seq)
    requires Monotone(s, start) && Enabled(s, Receive)
    ensures Gap(After(s, Receive), start) <==> Gap(s, start) || Overtakes(s, start, Receive)
  {
    NextIsNewer(s, start);
    var r := After(s, Receive);
    assert forall e :: e in r.received <==> e in s.received || e == s.wire[0];
    if e :| e in s.committed && start < e <= s.after && e !in s.received {
      assert e in r.committed && start < e <= r.after && e !in r.received;
    }
    if x :| x in s.committed && s.after < x < s.wire[0] {
      assert x in r.committed && start < x <= r.after && x !in r.received;
    }
  }

  lemma StepGap(s: State, start: Seq, step: Step)
    requires Known(s) && Monotone(s, start) && Enabled(s, step)
    ensures Gap(After(s, step), start) <==> Gap(s, start) || Overtakes(s, start, step)
  {
    match step
    case Receive => ReceiveGap(s, start);
    case Commit(e) =>
      assert e in After(s, step).committed && e !in s.received;
    case _ =>
  }

  lemma {:induction false} ExecKnown(start: Seq, steps: seq<Step>)
    ensures Known(Exec(start, steps))
  {
    if steps != [] {
      ExecKnown(start, steps[..|steps| - 1]);
      if Enabled(Exec(start, steps[..|steps| - 1]), steps[|steps| - 1]) {
        StepKnown(Exec(start, steps[..|steps| - 1]), steps[|steps| - 1]);
      }
    }
  }

  ghost predicate OvertakesLast(start: Seq, steps: seq<Step>) {
    steps != [] &&
    var s := Exec(start, steps[..|steps| - 1]);
    Enabled(s, steps[|steps| - 1]) && Overtakes(s, start, steps[|steps| - 1])
  }

  ghost predicate Overtaken(start: Seq, steps: seq<Step>) {
    steps != [] && (Overtaken(start, steps[..|steps| - 1]) || OvertakesLast(start, steps))
  }

  // In any run whatever, the client misses an event exactly when some step of the
  // run overtook it.
  lemma {:induction false} GapIffOvertaken(start: Seq, steps: seq<Step>)
    ensures Gap(Exec(start, steps), start) <==> Overtaken(start, steps)
  {
    if steps != [] {
      var rest, last := steps[..|steps| - 1], steps[|steps| - 1];
      GapIffOvertaken(start, rest);
      ExecKnown(start, rest);
      ExecMonotone(start, rest);
      if Enabled(Exec(start, rest), last) {
        StepGap(Exec(start, rest), start, last);
      }
    }
  }

  // Which happens whenever two emits under way commit in the wrong order while
  // a client is following: the earlier event is dropped from its queue.
  lemma LateCommitIsOvertaken(s: State, a: Seq, b: Seq)
    requires s.phase == Streaming([]) && s.queue == [] && s.wire == [] && a in s.open && b in s.open
    requires s.lastSent < a < b && a !in s.received && a !in s.committed && b !in s.committed && a !in s.published
        && b !in s.published
    ensures var r := Do(Do(Do(Do(s, Commit(b)), Publish(b)), Take), Receive);
      var t := Do(Do(Do(r, Commit(a)), Publish(a)), Take);
      && a in t.committed && a in t.published && t.queue == [] && t.wire == []
      && a !in t.received && a <= t.after
  {
    var s1 := Do(s, Commit(b));
    var s2 := Do(s1, Publish(b));
    assert s2.queue == [b];
    var s3 := Do(s2, Take);
    assert s3.wire == [b] && s3.queue == [];
    var r := Do(s3, Receive);
    assert r.received == s.received + [b] && r.after == b && r.wire == [];
    var r1 := Do(r, Commit(a));
    var r2 := Do(r1, Publish(a));
    assert r2.queue == [a] && r2.lastSent == b;
    var t := Do(r2, Take);
    assert t.queue == [] && t.received == r.received;
  }

  // From the beginning: two emits under way, a client that connects, and then
  // the commits in the wrong order.
  function OvertakenRun(): seq<Step> {
    [Insert, Insert, Connect, Replay, Commit(2), Publish(2), Take, Receive, Commit(1)]
  }

  lemma ExecSnoc(start: Seq, steps: seq<Step>, step: Step)
    ensures Exec(start, steps + [step]) == Do(Exec(start, steps), step)
  {
    assert (steps + [step])[..|steps|] == steps;
  }

  lemma ExecTwo(start: Seq, steps: seq<Step>, a: Step, b: Step)
    ensures Exec(start, steps + [a] + [b]) == Do(Do(Exec(start, steps), a), b)
  {
    ExecSnoc(start, steps, a);
    ExecSnoc(start, steps + [a], b);
  }

  const FOLLOWING := State(2, {1, 2}, {}, {}, Streaming([]), [], 0, [], [], 0)

  lemma FollowingSteps()
    ensures Do(Do(Do(Do(Initial(0), Insert), Insert), Connect), Replay) == FOLLOWING
  {
    var s1 := Do(Initial(0), Insert);
    assert s1 == Initial(0).(highest := 1, open := {1});
    var s2 := Do(s1, Insert);
    assert s2 == Initial(0).(highest := 2, open := {1, 2});
    var s3 := Do(s2, Connect);
    assert s3 == s2.(phase := Subscribed);
    assert Later({}, 0) == {};
    assert Rows({}, 0) == [];
  }

  lemma FollowingReached()
    ensures Exec(0, [Insert] + [Insert] + [Connect] + [Replay]) == FOLLOWING
  {
    FollowingSteps();
    ExecTwo(0, [], Insert, Insert);
    assert [] + [Insert] + [Insert] == [Insert] + [Insert];
    ExecTwo(0, [Insert] + [Insert], Connect, Replay);
  }

  lemma GapIsReached()
    ensures Gap(Exec(0, OvertakenRun()), 0)
  {
    FollowingReached();
    var a := [Insert] + [Insert] + [Connect] + [Replay];
    ExecTwo(0, a, Commit(2), Publish(2));
    ExecTwo(0, a + [Commit(2)] + [Publish(2)], Take, Receive);
    ExecSnoc(0, a + [Commit(2)] + [Publish(2)] + [Take] + [Receive], Commit(1));
    var s4 := Do(Do(Do(Do(FOLLOWING, Commit(2)), Publish(2)), Take), Receive);
    assert s4.received == [2] && s4.after == 2 && 1 in s4.open;
    assert OvertakenRun() == a + [Commit(2)] + [Publish(2)] + [Take] + [Receive] + [Commit(1)];
    assert 1 in Exec(0, OvertakenRun()).committed;
  }

  // Emits that commit one at a time and in order, but publish in the other order,
  // do it too: the client never gets event 1, though everything is through.
  function PublishedOutOfOrder(): seq<Step> {
    [Connect, Replay, Insert, Commit(1), Insert, Commit(2), Publish(2), Take, Receive, Publish(1), Take]
  }

  const EMPTY_STREAM := Initial(0).(phase := Streaming([]))

  lemma StreamOpens()
    ensures Do(Do(Initial(0), Connect), Replay) == EMPTY_STREAM
  {
    assert Later({}, 0) == {};
    assert Rows({}, 0) == [];
  }

  // Both rows are there before either is published.
  lemma BothCommitted()
    ensures Do(Do(Do(Do(EMPTY_STREAM, Insert), Commit(1)), Insert), Commit(2))
         == EMPTY_STREAM.(highest := 2, committed := {1, 2})
  {
    assert Do(Do(EMPTY_STREAM, Insert), Commit(1)) == EMPTY_STREAM.(highest := 1, committed := {1});
  }

  lemma OutOfOrderDropped()
    ensures var s := EMPTY_STREAM.(highest := 2, committed := {1, 2});
      Do(Do(Do(Do(Do(s, Publish(2)), Take), Receive), Publish(1)), Take)
      == State(2, {}, {1, 2}, {1, 2}, Streaming([]), [], 2, [], [2], 2)
  {
    var s := EMPTY_STREAM.(highest := 2, committed := {1, 2});
    var s3 := Do(Do(Do(s, Publish(2)), Take), Receive);
    assert s3 == State(2, {}, {1, 2}, {2}, Streaming([]), [], 2, [], [2], 2);
    assert Do(s3, Publish(1)) == State(2, {}, {1, 2}, {1, 2}, Streaming([]), [1], 2, [], [2], 2);
  }

  lemma PublishOrderGap()
    ensures var s := Exec(0, PublishedOutOfOrder());
      && Gap(s, 0) && 1 !in s.received
      && s.open == {} && s.published == s.committed && s.queue == [] && s.wire == []
  {
    var start := [Connect] + [Replay];
    var committed := start + [Insert] + [Commit(1)] + [Insert] + [Commit(2)];
    ExecTwo(0, [], Connect, Replay);
    assert [] + [Connect] + [Replay] == start;
    StreamOpens();
    ExecTwo(0, start, Insert, Commit(1));
    ExecTwo(0, start + [Insert] + [Commit(1)], Insert, Commit(2));
    BothCommitted();
    ExecTwo(0, committed, Publish(2), Take);
    ExecTwo(0, committed + [Publish(2)] + [Take], Receive, Publish(1));
    ExecSnoc(0, committed + [Publish(2)] + [Take] + [Receive] + [Publish(1)], Take);
    OutOfOrderDropped();
    assert PublishedOutOfOrder() == committed + [Publish(2)] + [Take] + [Receive] + [Publish(1)] + [Take];
    assert 1 in Exec(0, PublishedOutOfOrder()).committed;
  }

  // One of the two is always behind a gap: an event committed, or published,
  // before an earlier one.
  lemma GapNeedsDisorder(start: Seq, steps: seq<Step>)
    requires Gap(Exec(start, steps), start)
    ensures !AllOrderly(start, steps)
  {
    if AllOrderly(start, steps) {
      NoGapEver(start, steps);
    }
  }

  // ---------------------------------------------------------------- the generator

  // One queue read: send the event unless it was sent already.
  function TakeEvent(last: Seq, e: Seq): Seq {
    if e <= last then last else e
  }

  // What a list of queue reads makes the stream send.
  function Followed(last: Seq, taken: seq<Seq>): (r: seq<Seq>)
    decreases |taken|
  {
    if taken == [] then []
    else if taken[0] <= last then Followed(last, taken[1..])
    else [taken[0]] + Followed(taken[0], taken[1..])
  }

  // Only events above everything before them are sent.
  lemma {:induction false} FollowedIncreasing(last: Seq, taken: seq<Seq>)
    ensures Increasing(Followed(last, taken)) && Above(Followed(last, taken), last)
    ensures forall e :: e in Followed(last, taken) ==> e in taken
    decreases |taken|
  {
    if taken != [] {
      FollowedIncreasing(TakeEvent(last, taken[0]), taken[1..]);
    }
  }

  // An event that is above every earlier one, and above the start, is sent.
  lemma {:induction false} FollowedComplete(last: Seq, taken: seq<Seq>, k: nat)
    requires k < |taken| && last < taken[k] && forall i :: 0 <= i < k ==> taken[i] < taken[k]
    ensures taken[k] in Followed(last, taken)
    decreases |taken|
  {
    if k > 0 {
      FollowedComplete(TakeEvent(last, taken[0]), taken[1..], k - 1);
      assert taken[1..][k - 1] == taken[k];
    }
  }

  function LastOf(start: Seq, s: seq<Seq>): Seq {
    if s == [] then start else s[|s| - 1]
  }

  lemma {:induction false} FollowedOneMore(last: Seq, taken: seq<Seq>, e: Seq)
    ensures Followed(last, taken + [e]) ==
      Followed(last, taken) + if e <= LastOf(last, Followed(last, taken)) then [] else [e]
    decreases |taken|
  {
    if taken == [] {
      assert [] + [e] == [e] && [e][1..] == [];
    } else {
      assert (taken + [e])[1..] == taken[1..] + [e];
      FollowedOneMore(TakeEvent(last, taken[0]), taken[1..], e);
    }
  }

  lemma FollowedNext(last: Seq, taken: seq<Seq>, k: nat)
    requires k < |taken|
    ensures Followed(last, taken[..k + 1]) ==
      if taken[k] <= LastOf(last, Followed(last, taken[..k])) then Followed(last, taken[..k])
      else Followed(last, taken[..k]) + [taken[k]]
  {
    assert taken[..k + 1] == taken[..k] + [taken[k]];
    FollowedOneMore(last, taken[..k], taken[k]);
  }

  // The body of the stream: the replayed rows, then the queue until the client
  // is gone. `taken` is what the queue yields in that time.
  method Generate(start: Seq, rows: seq<Seq>, taken: seq<Seq>) returns (sent: seq<Seq>)
    requires Increasing(rows) && Above(rows, start)
    ensures sent == rows + Followed(LastOf(start, rows), taken)
    ensures Increasing(sent) && Above(sent, start)
  {
    sent := [];
    var lastSent := start;
    for k := 0 to |rows|
      invariant sent == rows[..k] && lastSent == LastOf(start, rows[..k])
    {
      lastSent := rows[k];
      sent := sent + [rows[k]];
    }
    assert rows[..|rows|] == rows;
    ghost var floor := lastSent;
    assert Followed(floor, taken[..0]) == [];
    for k := 0 to |taken|
      invariant sent == rows + Followed(floor, taken[..k])
      invariant lastSent == LastOf(floor, Followed(floor, taken[..k]))
    {
      var e := taken[k];
      FollowedNext(floor, taken, k);
      if e <= lastSent {
        continue;
      }
      lastSent := e;
      sent := sent + [e];
    }
    assert taken[..|taken|] == taken;
    FollowedIncreasing(floor, taken);
  }
}
