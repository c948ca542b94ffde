/** The event store: a bounded log with live subscribers, and how a stream resumes from it. */
module EventLog {
  import opened Numerals

  /** Ids are decimal numerals, counted from 1. */
  datatype Event = Event(id: string, action: string, success: bool)

  const CHANNEL_SLOTS: nat := 100
  const DEFAULT_LIMIT: nat := 200

  /** `subs` maps each subscription to what its channel holds. */
  datatype Store = Store(events: seq<Event>, limit: nat, subs: map<nat, seq<Event>>, nextId: nat)

  function New(limit: int): Store {
    Store([], if limit <= 0 then DEFAULT_LIMIT else limit, map[], 0)
  }

  /** A send that does not wait: a full channel loses the event. */
  function Send(queue: seq<Event>, event: Event): seq<Event> {
    if |queue| < CHANNEL_SLOTS then queue + [event] else queue
  }

  function Offer(subs: map<nat, seq<Event>>, event: Event): map<nat, seq<Event>> {
    map c | c in subs :: Send(subs[c], event)
  }

  function Recorded(s: Store, action: string, success: bool): Store {
    var event := Event(Decimal(s.nextId + 1), action, success);
    var events := s.events + [event];
    Store(if |events| > s.limit then events[1..] else events, s.limit,
          Offer(s.subs, event), s.nextId + 1)
  }

  /** The part of a backlog after an id; all of it when the id is empty or not found. */
  function EventsAfter(events: seq<Event>, afterId: string): seq<Event> {
    if afterId == "" then events else AfterFirst(events, afterId, events)
  }

  function AfterFirst(events: seq<Event>, afterId: string, default_: seq<Event>): seq<Event> {
    if events == [] then default_
    else if events[0].id == afterId then events[1..]
    else AfterFirst(events[1..], afterId, default_)
  }

  method FindEventsAfter(events: seq<Event>, afterId: string) returns (r: seq<Event>)
    ensures r == EventsAfter(events, afterId)
  {
    if afterId == "" {
      return events;
    }
    assert events[0..] == events;
    for i := 0 to |events|
      invariant AfterFirst(events, afterId, events) == AfterFirst(events[i..], afterId, events)
    {
      assert events[i..][1..] == events[i + 1..];
      if events[i].id == afterId {
        return events[i + 1..];
      }
    }
    return events;
  }

  class EventStore {
    var events: seq<Event>
    var limit: nat
    var subs: map<nat, seq<Event>>
    var nextId: nat

    constructor (limit: int)
      ensures View() == New(limit) && this.limit == (if limit <= 0 then 200 else limit) && events == []
    {
      this.limit := if limit <= 0 then DEFAULT_LIMIT else limit;
      events, subs, nextId := [], map[], 0;
    }

    ghost function View(): Store
      reads this
    {
      Store(events, limit, subs, nextId)
    }

    method Record(action: string, success: bool)
      modifies this
      ensures View() == Recorded(old(View()), action, success)
    {
      nextId := nextId + 1;
      var event := Event(Decimal(nextId), action, success);
      events := events + [event];
      if |events| > limit {
        events := events[1..];
      }
      Broadcast(event);
    }

    /** The loop over the channels, in whatever order the map yields them. */
    method Broadcast(event: Event)
      modifies this`subs
      ensures subs == Offer(old(subs), event)
      ensures subs.Keys == old(subs).Keys
      ensures forall c :: c in subs ==> subs[c] == old(subs)[c] + if |old(subs)[c]| < 100 then [event] else []
    {
      ghost var before := subs;
      var rest := subs.Keys;
      while rest != {}
        invariant rest <= before.Keys && subs.Keys == before.Keys
        invariant forall c :: c in before ==> subs[c] == if c in rest then before[c] else Send(before[c], event)
        decreases |rest|
      {
        var c :| c in rest;
        if |subs[c]| < CHANNEL_SLOTS {
          subs := subs[c := subs[c] + [event]];
        }
        rest := rest - {c};
      }
    }

    /** The newest event first. */
    method List() returns (out: seq<Event>)
      ensures |out| == |events| && forall k :: 0 <= k < |out| ==> out[k] == events[|events| - 1 - k]
    {
      out := [];
      for i := 0 to |events|
        invariant |out| == i && forall k :: 0 <= k < i ==> out[k] == events[i - 1 - k]
      {
        out := [events[i]] + out;
      }
    }

    method SubscribeAndList(c: nat) returns (backlog: seq<Event>)
      requires c !in subs
      modifies this
      ensures View() == old(View()).(subs := old(subs)[c := []]) && backlog == events
    {
      subs := subs[c := []];
      backlog := events;
    }

    method Unsubscribe(c: nat)
      modifies this
      ensures View() == old(View()).(subs := old(subs) - {c})
    {
      if c in subs {
        subs := subs - {c};
      }
    }
  }
}
