/** The busy flag around every mutation, and the audit event each of them leaves. */
module MutationGate {
  import opened Wrappers

  type Caller = nat

  /** Where an admitted caller stands; its ticket is the number of its admission. */
  datatype Place = InBody(ticket: nat) | Done(ticket: nat, success: bool) | Audited(ticket: nat)

  /** What happened, in order: a change of state by some body, or an audit event. */
  datatype Mark = Changed(ticket: nat) | Event(ticket: nat, success: bool)

  datatype Gate = Gate(busy: bool, places: map<Caller, Place>, admitted: nat, trace: seq<Mark>)

  datatype Step =
    | Enter(c: Caller)
    | Change(c: Caller)
    | Finish(c: Caller, success: bool)
    | Audit(c: Caller)
    | Release(c: Caller)

  const START := Gate(false, map[], 0, [])

  /** A caller that finds the gate busy is turned away with a conflict. */
  function Next(g: Gate, step: Step): Option<Gate> {
    match step
    case Enter(c) =>
      if c in g.places then None
      else if g.busy then Some(g)
      else Some(g.(busy := true, places := g.places[c := InBody(g.admitted + 1)], admitted := g.admitted + 1))
    case Change(c) =>
      if c !in g.places || !g.places[c].InBody? then None
      else Some(g.(trace := g.trace + [Changed(g.places[c].ticket)]))
    case Finish(c, success) =>
      if c !in g.places || !g.places[c].InBody? then None
      else Some(g.(places := g.places[c := Done(g.places[c].ticket, success)]))
    case Audit(c) =>
      if c !in g.places || !g.places[c].Done? then None
      else Some(g.(places := g.places[c := Audited(g.places[c].ticket)],
                   trace := g.trace + [Event(g.places[c].ticket, g.places[c].success)]))
    case Release(c) =>
      if c !in g.places || !g.places[c].Audited? then None
      else Some(g.(busy := false, places := g.places - {c}))
  }

  function Run(g: Gate, steps: seq<Step>): Option<Gate>
    decreases |steps|
  {
    if steps == [] then Some(g)
    else match Next(g, steps[0])
      case None => None
      case Some(n) => Run(n, steps[1..])
  }

  /** The audit events of a trace. */
  function Events(trace: seq<Mark>): seq<Mark> {
    if trace == [] then []
    else Events(trace[..|trace| - 1]) + if trace[|trace| - 1].Event? then [trace[|trace| - 1]] else []
  }

  /** Marks come in the order of the tickets, and an audit event is the last mark of its ticket. */
  ghost predicate InTurn(trace: seq<Mark>) {
    forall i, j :: 0 <= i < j < |trace| ==>
      trace[i].ticket <= trace[j].ticket && (trace[i].Event? ==> trace[i].ticket < trace[j].ticket)
  }

  ghost predicate Numbered(events: seq<Mark>) {
    forall i :: 0 <= i < |events| ==> events[i].ticket == i + 1
  }

  /** One caller at most is inside, with the last ticket; every earlier ticket has its audit event. */
  ghost predicate Inv(g: Gate) {
    && (g.busy <==> g.places != map[])
    && (forall a, b :: a in g.places && b in g.places ==> a == b)
    && (forall c :: c in g.places ==> g.places[c].ticket == g.admitted > 0)
    && InTurn(g.trace) && Numbered(Events(g.trace))
    && (forall i :: 0 <= i < |g.trace| ==> g.trace[i].ticket <= g.admitted)
    && if forall c :: c in g.places ==> g.places[c].Audited? then
         |Events(g.trace)| == g.admitted
       else
         |Events(g.trace)| + 1 == g.admitted && forall i :: 0 <= i < |g.trace| && g.trace[i].Event? ==> g.trace[i].ticket < g.admitted
  }

  lemma EventsMore(trace: seq<Mark>, mark: Mark)
    ensures Events(trace + [mark]) == Events(trace) + if mark.Event? then [mark] else []
  {
    assert (trace + [mark])[..|trace|] == trace;
  }

  lemma StepKeeps(g: Gate, step: Step)
    requires Inv(g) && Next(g, step).Some?
    ensures Inv(Next(g, step).value)
  {
    hide Events;
    var n := Next(g, step).value;
    var c := step.c;
    if c in n.places { assert n.places != map[]; }
    match step {
      case Change(_) => EventsMore(g.trace, Changed(g.places[c].ticket));
      case Audit(_) => EventsMore(g.trace, Event(g.places[c].ticket, g.places[c].success));
      case Release(_) =>
        assert forall b :: b in g.places ==> b == c;
        assert n.places == map[];
      case _ =>
    }
  }

  lemma {:induction false} RunKeeps(g: Gate, steps: seq<Step>)
    requires Inv(g) && Run(g, steps).Some?
    ensures Inv(Run(g, steps).value)
    decreases |steps|
  {
    hide Inv;
    hide Next;
    if steps != [] {
      StepKeeps(g, steps[0]);
      RunKeeps(Next(g, steps[0]).value, steps[1..]);
    }
  }

  /** Under any interleaving at most one body runs. Each admitted mutation leaves exactly one audit event, after
      all of its changes and before any change of the next; events are numbered as the mutations took effect. */
  lemma OneAtATime(steps: seq<Step>)
    requires Run(START, steps).Some?
    ensures var g := Run(START, steps).value;
            && (forall a, b :: a in g.places && b in g.places ==> a == b)
            && InTurn(g.trace) && Numbered(Events(g.trace))
            && g.admitted - 1 <= |Events(g.trace)| <= g.admitted
            && (g.places == map[] ==> |Events(g.trace)| == g.admitted)
  {
    RunKeeps(START, steps);
  }

  /** The steps without the entries that were turned away. */
  function Admissions(g: Gate, steps: seq<Step>): seq<Step>
    requires Run(g, steps).Some?
    decreases |steps|
  {
    if steps == [] then []
    else
      var rest := Admissions(Next(g, steps[0]).value, steps[1..]);
      if steps[0].Enter? && g.busy then rest else [steps[0]] + rest
  }

  /** Rejected callers leave no trace at all: the run without them is the same run. */
  lemma {:induction false} RejectionsLeaveNoTrace(g: Gate, steps: seq<Step>)
    requires Run(g, steps).Some?
    ensures Run(g, Admissions(g, steps)) == Run(g, steps)
    decreases |steps|
  {
    if steps != [] {
      RejectionsLeaveNoTrace(Next(g, steps[0]).value, steps[1..]);
      var rest := Admissions(Next(g, steps[0]).value, steps[1..]);
      assert ([steps[0]] + rest)[1..] == rest;
    }
  }

  /** `withMutationResult`, split where the body runs: the swap of the flag, and what is deferred. */
  class Manager {
    var busy: bool
    var admitted: nat
    var trace: seq<Mark>

    constructor ()
      ensures !busy && admitted == 0 && trace == []
    {
      busy, admitted, trace := false, 0, [];
    }

    method TryEnter() returns (ok: bool)
      modifies this`busy, this`admitted
      ensures ok == !old(busy) && busy
      ensures admitted == if ok then old(admitted) + 1 else old(admitted)
    {
      if busy {
        return false;
      }
      busy := true;
      admitted := admitted + 1;
      return true;
    }

    method Leave(success: bool)
      modifies this`busy, this`trace
      ensures !busy && trace == old(trace) + [Event(admitted, success)]
    {
      trace := trace + [Event(admitted, success)];
      busy := false;
    }
  }
}
