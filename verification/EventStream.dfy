/** Recording, subscribing, receiving and leaving, in any order. */
module EventStream {
  import opened Wrappers
  import opened Numerals
  import opened EventLog

  /** One reader: when it subscribed, the backlog it was given, what it has received since,
      the positions in history of all it has received or still has queued, and whether a send was lost. */
  datatype Reader = Reader(start: nat, backlog: seq<Event>, taken: seq<Event>, positions: seq<nat>, lost: bool)

  datatype Sys = Sys(store: Store, history: seq<Event>, readers: map<nat, Reader>)

  datatype Step =
    | Record(action: string, success: bool)
    | Subscribe(c: nat)
    | Receive(c: nat)
    | Unsubscribe(c: nat)

  function Init(limit: int): Sys {
    Sys(New(limit), [], map[])
  }

  /** What a recorded event does to a reader that still has a channel. */
  function Offered(r: Reader, queue: seq<Event>, n: nat): Reader {
    if |queue| < CHANNEL_SLOTS then r.(positions := r.positions + [n]) else r.(lost := true)
  }

  function Next(s: Sys, step: Step): Option<Sys> {
    match step
    case Record(action, success) =>
      var event := Event(Decimal(s.store.nextId + 1), action, success);
      Some(Sys(Recorded(s.store, action, success), s.history + [event],
               map c | c in s.readers ::
                 if c in s.store.subs then Offered(s.readers[c], s.store.subs[c], |s.history|) else s.readers[c]))
    case Subscribe(c) =>
      if c in s.readers then None
      else Some(s.(store := s.store.(subs := s.store.subs[c := []]),
                   readers := s.readers[c := Reader(|s.history|, s.store.events, [], [], false)]))
    case Receive(c) =>
      if c !in s.store.subs || c !in s.readers || s.store.subs[c] == [] then None
      else
        var queue := s.store.subs[c];
        Some(s.(store := s.store.(subs := s.store.subs[c := queue[1..]]),
                readers := s.readers[c := s.readers[c].(taken := s.readers[c].taken + [queue[0]])]))
    case Unsubscribe(c) => Some(s.(store := s.store.(subs := s.store.subs - {c})))
  }

  function Run(s: Sys, steps: seq<Step>): Option<Sys>
    decreases |steps|
  {
    if steps == [] then Some(s)
    else match Next(s, steps[0])
      case None => None
      case Some(n) => Run(n, steps[1..])
  }

  /** The last `limit` events. */
  function Ring(history: seq<Event>, limit: nat): seq<Event> {
    if |history| <= limit then history else history[|history| - limit..]
  }

  ghost predicate Numbered(history: seq<Event>) {
    forall i :: 0 <= i < |history| ==> history[i].id == Decimal(i + 1)
  }

  ghost predicate ReaderOk(history: seq<Event>, limit: nat, r: Reader, queue: seq<Event>) {
    var received := r.taken + queue;
    && r.start <= |history| && r.backlog == Ring(history[..r.start], limit)
    && |queue| <= CHANNEL_SLOTS
    && |received| == |r.positions|
    && (forall i :: 0 <= i < |received| ==> r.start <= r.positions[i] < |history| && received[i] == history[r.positions[i]])
    && (forall i, j :: 0 <= i < j < |received| ==> r.positions[i] < r.positions[j])
    && (!r.lost ==> received == history[r.start..])
  }

  ghost predicate Inv(s: Sys) {
    && s.store.limit > 0
    && s.store.nextId == |s.history| && Numbered(s.history)
    && s.store.events == Ring(s.history, s.store.limit)
    && s.store.subs.Keys <= s.readers.Keys
    && forall c :: c in s.store.subs ==> ReaderOk(s.history, s.store.limit, s.readers[c], s.store.subs[c])
  }

  lemma RingStep(history: seq<Event>, limit: nat, event: Event)
    requires limit > 0
    ensures var grown := Ring(history, limit) + [event];
            Ring(history + [event], limit) == if |grown| > limit then grown[1..] else grown
  {}

  lemma OfferKeeps(history: seq<Event>, limit: nat, r: Reader, queue: seq<Event>, event: Event)
    requires ReaderOk(history, limit, r, queue)
    ensures ReaderOk(history + [event], limit, Offered(r, queue, |history|), Send(queue, event))
  {
    hide Ring;
    var more := history + [event];
    assert more[..r.start] == history[..r.start];
    if |queue| < CHANNEL_SLOTS {
      var before, after := r.taken + queue, r.taken + (queue + [event]);
      assert after == before + [event];
      if !r.lost { assert more[r.start..] == history[r.start..] + [event]; }
    }
  }

  lemma RecordKeeps(s: Sys, action: string, success: bool)
    requires Inv(s)
    ensures Inv(Next(s, Record(action, success)).value)
  {
    hide ReaderOk;
    hide Ring;
    var n := Next(s, Record(action, success)).value;
    var event := Event(Decimal(s.store.nextId + 1), action, success);
    RingStep(s.history, s.store.limit, event);
    forall c | c in n.store.subs ensures ReaderOk(n.history, n.store.limit, n.readers[c], n.store.subs[c]) {
      OfferKeeps(s.history, s.store.limit, s.readers[c], s.store.subs[c], event);
    }
  }

  lemma SubscribeKeeps(s: Sys, c: nat)
    requires Inv(s) && c !in s.readers
    ensures Inv(Next(s, Subscribe(c)).value)
  {
    assert s.history[..|s.history|] == s.history;
    assert ReaderOk(s.history, s.store.limit, Reader(|s.history|, s.store.events, [], [], false), []);
  }

  lemma ReceiveKeeps(s: Sys, c: nat)
    requires Inv(s) && Next(s, Receive(c)).Some?
    ensures Inv(Next(s, Receive(c)).value)
  {
    hide ReaderOk;
    hide Ring;
    hide Numbered;
    TakeKeeps(s.history, s.store.limit, s.readers[c], s.store.subs[c]);
  }

  lemma TakeKeeps(history: seq<Event>, limit: nat, r: Reader, queue: seq<Event>)
    requires ReaderOk(history, limit, r, queue) && queue != []
    ensures ReaderOk(history, limit, r.(taken := r.taken + [queue[0]]), queue[1..])
  {
    assert (r.taken + [queue[0]]) + queue[1..] == r.taken + queue;
  }

  lemma StepKeeps(s: Sys, step: Step)
    requires Inv(s) && Next(s, step).Some?
    ensures Inv(Next(s, step).value)
  {
    match step
    case Record(action, success) => RecordKeeps(s, action, success);
    case Subscribe(c) => SubscribeKeeps(s, c);
    case Receive(c) => ReceiveKeeps(s, c);
    case Unsubscribe(c) =>
  }

  lemma {:induction false} RunKeeps(s: Sys, steps: seq<Step>)
    requires Inv(s) && Run(s, steps).Some?
    ensures Inv(Run(s, steps).value)
    decreases |steps|
  {
    hide Inv;
    hide Next;
    if steps != [] {
      StepKeeps(s, steps[0]);
      RunKeeps(Next(s, steps[0]).value, steps[1..]);
    }
  }

  /** At every point of every run the store keeps exactly the last events, numbered from 1. */
  lemma RingIsSuffix(limit: int, steps: seq<Step>)
    requires Run(Init(limit), steps).Some?
    ensures var s := Run(Init(limit), steps).value;
            && s.store.events == Ring(s.history, s.store.limit) && Numbered(s.history)
            && s.store.limit == if limit <= 0 then 200 else limit
  {
    RunKeeps(Init(limit), steps);
    LimitStays(Init(limit), steps);
    hide Run;
  }

  lemma {:induction false} LimitStays(s: Sys, steps: seq<Step>)
    requires Run(s, steps).Some?
    ensures Run(s, steps).value.store.limit == s.store.limit
    decreases |steps|
  {
    hide Offer;
    hide Offered;
    hide Decimal;
    if steps != [] { LimitStays(Next(s, steps[0]).value, steps[1..]); }
  }

  /** The events that the recordings of a run make, numbered on from n. */
  function Made(n: nat, steps: seq<Step>): seq<Event>
    decreases |steps|
  {
    if steps == [] then []
    else if steps[0].Record? then [Event(Decimal(n + 1), steps[0].action, steps[0].success)] + Made(n + 1, steps[1..])
    else Made(n, steps[1..])
  }

  lemma {:induction false} HistoryGrows(s: Sys, steps: seq<Step>)
    requires Run(s, steps).Some? && s.store.nextId == |s.history|
    ensures Run(s, steps).value.history == s.history + Made(|s.history|, steps)
    decreases |steps|
  {
    hide Decimal;
    hide Offer;
    hide Offered;
    if steps != [] {
      var n := Next(s, steps[0]).value;
      HistoryGrows(n, steps[1..]);
    }
  }

  /** Every recording of a run, and nothing else, makes one event with what was recorded, in order. */
  lemma HistoryIsRecorded(limit: int, steps: seq<Step>)
    requires Run(Init(limit), steps).Some?
    ensures Run(Init(limit), steps).value.history == Made(0, steps)
  {
    HistoryGrows(Init(limit), steps);
  }

  // ---------- resuming ----------

  /** Looking for an event by its id finds it at its place in a consecutive stretch of history. */
  lemma {:induction false} AfterInStretch(history: seq<Event>, from: nat, to: nat, j: nat, all: seq<Event>)
    requires Numbered(history) && from <= to <= |history|
    ensures AfterFirst(history[from..to], Decimal(j), all) == (if from < j <= to then history[j..to] else all)
    decreases |history| - from
  {
    if from < to {
      var stretch := history[from..to];
      assert stretch[0] == history[from] && stretch[1..] == history[from + 1..to];
      if stretch[0].id == Decimal(j) {
        DecimalInjective(from + 1, j);
      } else {
        AfterInStretch(history, from + 1, to, j, all);
      }
    }
  }

  /** The backlog resumes after event j without a gap exactly when the ring reaches back to it. */
  lemma BacklogResumes(history: seq<Event>, limit: nat, j: nat)
    requires Numbered(history) && limit > 0 && j <= |history|
    ensures EventsAfter(Ring(history, limit), Decimal(j)) == history[j..] <==> j + limit >= |history|
  {
    var from := if |history| <= limit then 0 else |history| - limit;
    assert Ring(history, limit) == history[from..|history|];
    assert history[j..] == history[j..|history|];
    AfterInStretch(history, from, |history|, j, Ring(history, limit));
    if j < from {
      assert |history[j..]| > |Ring(history, limit)|;
    }
  }

  /** A reader that lost no send has received everything recorded since it subscribed. */
  lemma NothingLost(history: seq<Event>, limit: nat, r: Reader, queue: seq<Event>)
    requires ReaderOk(history, limit, r, queue) && !r.lost
    ensures r.start <= |history| && r.backlog == Ring(history[..r.start], limit) && r.taken + queue == history[r.start..]
  {
    hide Ring;
  }

  lemma Joined(history: seq<Event>, start: nat, j: nat)
    requires j <= start <= |history|
    ensures history[..start][j..] + history[start..] == history[j..]
  {}

  lemma NumberedPast(history: seq<Event>, start: nat)
    requires Numbered(history) && start <= |history|
    ensures Numbered(history[..start])
  {}

  lemma ResumeReader(history: seq<Event>, limit: nat, r: Reader, queue: seq<Event>, j: nat)
    requires Numbered(history) && limit > 0 && ReaderOk(history, limit, r, queue) && !r.lost
    requires j <= r.start && j + limit >= r.start
    ensures EventsAfter(r.backlog, Decimal(j)) + (r.taken + queue) == history[j..]
  {
    hide *;
    NothingLost(history, limit, r, queue);
    NumberedPast(history, r.start);
    BacklogResumes(history[..r.start], limit, j);
    Joined(history, r.start, j);
  }

  /** A stream that asked for what follows event j, and lost no send, has every later event once and in order. */
  lemma ResumesWithoutGap(limit: int, steps: seq<Step>, c: nat, j: nat)
    requires Run(Init(limit), steps).Some?
    requires var s := Run(Init(limit), steps).value;
             c in s.store.subs && c in s.readers && !s.readers[c].lost
             && j <= s.readers[c].start && j + s.store.limit >= s.readers[c].start
    ensures var s := Run(Init(limit), steps).value;
            && j <= |s.history|
            && EventsAfter(s.readers[c].backlog, Decimal(j)) + (s.readers[c].taken + s.store.subs[c]) == s.history[j..]
  {
    RunKeeps(Init(limit), steps);
    var s := Run(Init(limit), steps).value;
    var r := s.readers[c];
    assert ReaderOk(s.history, s.store.limit, r, s.store.subs[c]);
    ResumeReader(s.history, s.store.limit, r, s.store.subs[c], j);
  }

  /** What a client gets that asked for the events after an id: the rest of the backlog, and then the channel. */
  function Stream(r: Reader, queue: seq<Event>, afterId: string): seq<Event> {
    EventsAfter(r.backlog, afterId) + (r.taken + queue)
  }

  lemma {:induction false} AfterFirstSuffix(events: seq<Event>, afterId: string, all: seq<Event>) returns (k: nat)
    ensures AfterFirst(events, afterId, all) == all || (k <= |events| && AfterFirst(events, afterId, all) == events[k..])
  {
    k := 0;
    if events != [] {
      if events[0].id == afterId {
        k := 1;
      } else {
        var rest := AfterFirstSuffix(events[1..], afterId, all);
        k := rest + 1;
      }
    }
  }

  /** Whatever the id, the rest of the backlog is a stretch of history that ends where the reader subscribed. */
  lemma BacklogStretch(history: seq<Event>, limit: nat, start: nat, afterId: string) returns (from: nat)
    requires limit > 0 && start <= |history|
    ensures from <= start && EventsAfter(Ring(history[..start], limit), afterId) == history[from..start]
  {
    var backlog := Ring(history[..start], limit);
    var first := if start <= limit then 0 else start - limit;
    assert backlog == history[first..start];
    var k := AfterFirstSuffix(backlog, afterId, backlog);
    if EventsAfter(backlog, afterId) == backlog {
      from := first;
    } else {
      from := first + k;
    }
  }

  /** The place in history of an event of the stream. */
  lemma StreamPlace(history: seq<Event>, limit: nat, r: Reader, queue: seq<Event>, from: nat, afterId: string, i: nat) returns (m: nat)
    requires ReaderOk(history, limit, r, queue)
    requires from <= r.start && EventsAfter(r.backlog, afterId) == history[from..r.start]
    requires i < |Stream(r, queue, afterId)| && |r.positions| == |r.taken + queue|
    ensures m < |history| && Stream(r, queue, afterId)[i] == history[m]
    ensures m == if i < r.start - from then from + i else r.positions[i - (r.start - from)]
  {
    hide EventsAfter;
    hide Ring;
    m := if i < r.start - from then from + i else r.positions[i - (r.start - from)];
  }

  /** Whatever id was asked for, and even when sends are lost, the whole stream is in order and never repeats. */
  lemma AlwaysIncreasing(limit: int, steps: seq<Step>, c: nat, afterId: string, i: nat, j: nat)
    requires Run(Init(limit), steps).Some?
    requires var s := Run(Init(limit), steps).value;
             c in s.store.subs && c in s.readers && i < j < |Stream(s.readers[c], s.store.subs[c], afterId)|
    ensures var s := Run(Init(limit), steps).value;
            var stream := Stream(s.readers[c], s.store.subs[c], afterId);
            exists m, n :: 0 <= m < n < |s.history| && stream[i] == s.history[m] && stream[j] == s.history[n]
                        && stream[i].id == Decimal(m + 1) && stream[j].id == Decimal(n + 1)
  {
    ReaderAt(limit, steps, c);
    hide Run;
    hide Stream;
    hide Ring;
    hide ReaderOk;
    hide Numbered;
    var s := Run(Init(limit), steps).value;
    var m, n := StreamIncreasing(s.history, s.store.limit, s.readers[c], s.store.subs[c], afterId, i, j);
  }

  lemma ReaderAt(limit: int, steps: seq<Step>, c: nat)
    requires Run(Init(limit), steps).Some?
    requires var s := Run(Init(limit), steps).value; c in s.store.subs && c in s.readers
    ensures var s := Run(Init(limit), steps).value;
            s.store.limit > 0 && Numbered(s.history) && ReaderOk(s.history, s.store.limit, s.readers[c], s.store.subs[c])
  {
    RunKeeps(Init(limit), steps);
    hide Run;
    hide ReaderOk;
  }

  lemma StreamIncreasing(history: seq<Event>, limit: nat, r: Reader, queue: seq<Event>, afterId: string, i: nat, j: nat)
    returns (m: nat, n: nat)
    requires limit > 0 && Numbered(history) && ReaderOk(history, limit, r, queue) && i < j < |Stream(r, queue, afterId)|
    ensures m < n < |history| && Stream(r, queue, afterId)[i] == history[m] && Stream(r, queue, afterId)[j] == history[n]
    ensures history[m].id == Decimal(m + 1) && history[n].id == Decimal(n + 1)
  {
    ReaderStart(history, limit, r, queue);
    hide Stream;
    hide Ring;
    hide ReaderOk;
    hide EventsAfter;
    var from := BacklogStretch(history, limit, r.start, afterId);
    m := StreamPlace(history, limit, r, queue, from, afterId, i);
    n := StreamPlace(history, limit, r, queue, from, afterId, j);
    StreamOrder(history, limit, r, queue, from, afterId, i, j, m, n);
  }

  lemma ReaderStart(history: seq<Event>, limit: nat, r: Reader, queue: seq<Event>)
    requires ReaderOk(history, limit, r, queue)
    ensures r.start <= |history| && r.backlog == Ring(history[..r.start], limit) && |r.taken + queue| == |r.positions|
  {
    hide Ring;
  }

  lemma StreamOrder(history: seq<Event>, limit: nat, r: Reader, queue: seq<Event>, from: nat, afterId: string, i: nat, j: nat, m: nat, n: nat)
    requires ReaderOk(history, limit, r, queue)
    requires from <= r.start && EventsAfter(r.backlog, afterId) == history[from..r.start]
    requires i < j < |Stream(r, queue, afterId)| && |r.positions| == |r.taken + queue|
    requires m == if i < r.start - from then from + i else r.positions[i - (r.start - from)]
    requires n == if j < r.start - from then from + j else r.positions[j - (r.start - from)]
    ensures m < n
  {
    hide EventsAfter;
    hide Ring;
  }
}
