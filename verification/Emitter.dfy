// The activity emitter: an append-only log and the queues of its subscribers.
module Emitter {
  import opened Models
  import opened Ordering

  datatype Event = Event(mission: Id, sequence: nat, summary: string)

  class Queue {
    var items: seq<Event>

    constructor ()
      ensures items == []
    {
      items := [];
    }
  }

  // The persisted rows of one mission behind a sequence number.
  function RowsAfter(log: seq<Event>, mission: Id, after: nat): seq<Event> {
    Filter(log, (e: Event) => e.mission == mission && e.sequence > after)
  }

  class ActivityEventEmitter {
    var log: seq<Event>
    var subscribers: map<Id, set<Queue>>

    ghost function Queues(): set<Queue>
      reads this
    {
      set m, q | m in subscribers && q in subscribers[m] :: q
    }

    // Rows are numbered in order; a queue belongs to one mission, and holds
    // only that mission's persisted events.
    ghost predicate Valid()
      reads this, Queues()
    {
      && (forall i :: 0 <= i < |log| ==> log[i].sequence == i + 1)
      && (forall m, n, q :: m in subscribers && n in subscribers && q in subscribers[m] && q in subscribers[n] ==>
          m == n)
      && (forall m, q :: m in subscribers && q in subscribers[m] ==> forall e :: e in q.items ==>
          e in log && e.mission == m)
    }

    constructor ()
      ensures Valid() && log == [] && subscribers == map[]
    {
      log := [];
      subscribers := map[];
    }

    function Subscribed(mission: Id): set<Queue>
      reads this
    {
      if mission in subscribers then subscribers[mission] else {}
    }

    method Publish(event: Event)
      requires Valid() && event in log
      modifies Subscribed(event.mission)
      ensures Valid()
      ensures forall q :: q in Subscribed(event.mission) ==> q.items == old(q.items) + [event]
    {
      var todo := Subscribed(event.mission);
      while todo != {}
        invariant todo <= Subscribed(event.mission)
        invariant forall q :: q in Subscribed(event.mission) - todo ==> q.items == old(q.items) + [event]
        invariant forall q :: q in todo ==> q.items == old(q.items)
        decreases |todo|
      {
        var q :| q in todo;
        q.items := q.items + [event];
        todo := todo - {q};
      }
      forall m, q | m in subscribers && q in subscribers[m]
        ensures forall e :: e in q.items ==> e in log && e.mission == m
      {
        assert m != event.mission ==> q !in Subscribed(event.mission);
      }
    }

    // Persist, which gives the event its number, and then publish: no event is
    // in a queue without its row.
    method Emit(mission: Id, summary: string) returns (stored: Event)
      requires Valid()
      modifies this`log, Subscribed(mission)
      ensures Valid()
      ensures stored == Event(mission, |old(log)| + 1, summary) && log == old(log) + [stored]
      ensures forall q :: q in Subscribed(mission) ==> q.items == old(q.items) + [stored]
    {
      stored := Event(mission, |log| + 1, summary);
      log := log + [stored];
      Publish(stored);
    }

    method Subscribe(mission: Id) returns (queue: Queue)
      requires Valid()
      modifies this`subscribers
      ensures Valid() && fresh(queue) && queue.items == []
      ensures Subscribed(mission) == old(Subscribed(mission)) + {queue}
      ensures forall m :: m != mission ==> Subscribed(m) == old(Subscribed(m))
    {
      queue := new Queue();
      subscribers := subscribers[mission := Subscribed(mission) + {queue}];
    }

    // An empty set of queues is dropped.
    method Unsubscribe(mission: Id, queue: Queue)
      requires Valid()
      modifies this`subscribers
      ensures Valid()
      ensures Subscribed(mission) == old(Subscribed(mission)) - {queue}
      ensures forall m :: m != mission ==> Subscribed(m) == old(Subscribed(m))
      ensures mission in subscribers ==> subscribers[mission] != {}
    {
      var rest := Subscribed(mission) - {queue};
      subscribers := if rest == {} then subscribers - {mission} else subscribers[mission := rest];
    }

    method Replay(mission: Id, after: nat) returns (rows: seq<Event>)
      requires Valid()
      ensures rows == RowsAfter(log, mission, after)
      ensures forall e :: e in rows <==> e in log && e.mission == mission && e.sequence > after
      ensures forall i, j :: 0 <= i < j < |rows| ==> rows[i].sequence < rows[j].sequence
    {
      rows := RowsAfter(log, mission, after);
      FilterAscending(log, (e: Event) => e.mission == mission && e.sequence > after);
    }
  }

  lemma {:induction false} FilterAscending(s: seq<Event>, p: Event -> bool)
    requires forall i, j :: 0 <= i < j < |s| ==> s[i].sequence < s[j].sequence
    ensures forall i, j :: 0 <= i < j < |Filter(s, p)| ==> Filter(s, p)[i].sequence < Filter(s, p)[j].sequence
  {
    if |s| > 0 {
      var rest, last := s[..|s| - 1], s[|s| - 1];
      FilterAscending(rest, p);
      forall x | x in Filter(rest, p)
        ensures x.sequence < last.sequence
      {
        var i :| 0 <= i < |rest| && rest[i] == x;
        assert s[i] == x;
      }
      forall i | 0 <= i < |Filter(rest, p)|
        ensures Filter(rest, p)[i].sequence < last.sequence
      {
        assert Filter(rest, p)[i] in Filter(rest, p);
      }
    }
  }
}
