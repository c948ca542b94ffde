/** Watching the model storage: which scans report a change, and how reports reach the Router. */
module StorageWatch {
  import opened Wrappers

  /** The watcher's three fields. A fingerprint is the printed inventory, which is never empty. */
  datatype Watch = Watch(current: string, candidate: string, initialized: bool)

  const FRESH := Watch("", "", false)

  function Observed(w: Watch, next: string): (Watch, bool) {
    if !w.initialized then (Watch(next, w.candidate, true), false)
    else if next == w.current then (w.(candidate := ""), false)
    else if next != w.candidate then (w.(candidate := next), false)
    else (w.(current := next, candidate := ""), true)
  }

  // ---------- which scans report ----------

  /** The inventory that counts after some scans: the first one, or the one reported last. */
  function Accepted(scans: seq<string>): string
    requires scans != []
    decreases |scans|, 1
  {
    if Reports(scans) then scans[|scans| - 1]
    else if |scans| == 1 then scans[0]
    else Accepted(scans[..|scans| - 1])
  }

  /** The last scan saw the same as the one before it, and something else than what counted until then. */
  predicate Reports(scans: seq<string>)
    decreases |scans|, 0
  {
    var n := |scans|;
    n >= 2 && scans[n - 1] == scans[n - 2] && scans[n - 1] != Accepted(scans[..n - 1])
  }

  function After(scans: seq<string>): Watch {
    if scans == [] then FRESH else Observed(After(scans[..|scans| - 1]), scans[|scans| - 1]).0
  }

  /** A scan is reported exactly when it matches the scan before it and differs from the inventory accepted last. */
  lemma {:induction false} ObserveExact(scans: seq<string>)
    requires scans != [] && forall i :: 0 <= i < |scans| ==> scans[i] != ""
    ensures Observed(After(scans[..|scans| - 1]), scans[|scans| - 1]).1 <==> Reports(scans)
    ensures var last := scans[|scans| - 1];
            After(scans) == Watch(Accepted(scans), if last == Accepted(scans) then "" else last, true)
  {
    if |scans| > 1 {
      var before := scans[..|scans| - 1];
      ObserveExact(before);
      assert before[|before| - 1] == scans[|scans| - 2];
    }
  }

  /** The watcher's state, with the scans that led to it. */
  class LocalWatchState {
    var current: string
    var candidate: string
    var initialized: bool
    ghost var scans: seq<string>

    constructor ()
      ensures Valid() && scans == []
    {
      current, candidate, initialized, scans := "", "", false, [];
    }

    ghost function View(): Watch
      reads this
    {
      Watch(current, candidate, initialized)
    }

    ghost predicate Valid()
      reads this
    {
      View() == After(scans) && forall i :: 0 <= i < |scans| ==> scans[i] != ""
    }

    /** Reports exactly the scan that matches the one before it and differs from the inventory accepted last. */
    method Observe(next: string) returns (changed: bool)
      requires Valid() && next != ""
      modifies this
      ensures Valid() && scans == old(scans) + [next]
      ensures changed <==> Reports(scans)
      ensures current == Accepted(scans)
    {
      ghost var before := scans;
      scans := scans + [next];
      assert scans[..|scans| - 1] == before;
      ObserveExact(scans);
      if !initialized {
        current, initialized := next, true;
      } else if next == current {
        candidate := "";
      } else if next != candidate {
        candidate := next;
      } else {
        current, candidate := next, "";
        return true;
      }
      return false;
    }
  }

  // ---------- from reports to refreshes ----------

  /** Where the receiver stands: waiting for a token, about to refresh, refreshing, or waiting to try again. */
  datatype Receiver = Idle | Owing | Refreshing | Waiting | Gone

  /** `began` counts the scans made when the last refresh was admitted, `covered` those of the last one that did not
      end in a conflict. */
  datatype State = State(watch: Watch, scans: seq<string>, token: bool, receiver: Receiver, began: nat, covered: nat,
                         received: nat, done: bool, closed: bool)

  datatype Step =
    | Scan(next: string)
    | Receive
    | Attempt(admitted: bool)
    | Finish(conflict: bool)
    | Timer
    | Cancel
    | CloseChannel
    | GiveUp

  const START := State(FRESH, [], false, Idle, 0, 0, 0, false, false)

  /** One step of the watcher, the channel with its one slot, the receiver or the context. */
  function Next(s: State, step: Step): Option<State> {
    match step
    case Scan(next) =>
      if s.closed || next == "" then None
      else
        var (watch, changed) := Observed(s.watch, next);
        Some(s.(watch := watch, scans := s.scans + [next], token := s.token || changed))
    case Receive =>
      if s.receiver != Idle then None
      else if s.token then Some(s.(token := false, receiver := Owing, received := s.received + 1))
      else if s.closed then Some(s.(receiver := Gone))
      else None
    case Attempt(admitted) =>
      if s.receiver != Owing then None
      else if admitted then Some(s.(receiver := Refreshing, began := |s.scans|))
      else Some(s.(receiver := Waiting))
    case Finish(conflict) =>
      if s.receiver != Refreshing then None
      else if conflict then Some(s.(receiver := Waiting))
      else Some(s.(receiver := Idle, covered := s.began))
    case Timer =>
      if s.receiver != Waiting then None else Some(s.(receiver := Owing))
    case Cancel => Some(s.(done := true))
    case CloseChannel => if s.done then Some(s.(closed := true)) else None
    case GiveUp => if s.receiver == Waiting && s.done then Some(s.(receiver := Gone)) else None
  }

  function Run(s: State, steps: seq<Step>): Option<State>
    decreases |steps|
  {
    if steps == [] then Some(s)
    else match Next(s, steps[0])
      case None => None
      case Some(n) => Run(n, steps[1..])
  }

  /** How many of the scans were reported. */
  function Reported(scans: seq<string>): nat {
    if scans == [] then 0 else Reported(scans[..|scans| - 1]) + if Reports(scans) then 1 else 0
  }

  ghost predicate Inv(s: State) {
    && (forall i :: 0 <= i < |s.scans| ==> s.scans[i] != "")
    && s.watch == After(s.scans)
    && s.covered <= s.began <= |s.scans|
    && (s.receiver == Idle ==> s.covered == s.began)
    && (s.closed ==> s.done)
    && (s.receiver == Gone ==> s.done)
    && s.received + (if s.token then 1 else 0) <= Reported(s.scans)
    && Reported(s.scans[..s.began]) <= Reported(s.scans)
    && (Reported(s.scans[..s.began]) < Reported(s.scans) ==> s.token || s.receiver in {Owing, Waiting, Gone})
  }

  lemma StepKeeps(s: State, step: Step)
    requires Inv(s) && Next(s, step).Some?
    ensures Inv(Next(s, step).value)
  {
    hide Accepted;
    hide Observed;
    hide After;
    hide Reports;
    var n := Next(s, step).value;
    match step {
      case Scan(next) =>
        ScanCounts(s, next);
        assert n.scans[..n.began] == s.scans[..s.began];
      case Attempt(_) => assert s.scans[..|s.scans|] == s.scans;
      case _ =>
    }
  }

  lemma ScanCounts(s: State, next: string)
    requires Inv(s) && next != ""
    ensures var scans := s.scans + [next];
            && Observed(s.watch, next).0 == After(scans)
            && Reported(scans) == Reported(s.scans) + if Observed(s.watch, next).1 then 1 else 0
  {
    hide Accepted;
    hide Observed;
    var scans := s.scans + [next];
    assert scans[..|scans| - 1] == s.scans;
    ObserveExact(scans);
  }

  lemma StartInv()
    ensures Inv(START)
  {
    assert START.scans[..0] == [];
  }

  lemma {:induction false} RunKeeps(s: State, steps: seq<Step>)
    requires Inv(s) && Run(s, steps).Some?
    ensures Inv(Run(s, steps).value)
    decreases |steps|
  {
    hide Inv;
    hide Next;
    if steps != [] {
      StepKeeps(s, steps[0]);
      RunKeeps(Next(s, steps[0]).value, steps[1..]);
    }
  }

  lemma {:induction false} SameReportsSameAccepted(scans: seq<string>, n: nat)
    requires 0 < n <= |scans| && Reported(scans[..n]) == Reported(scans)
    ensures Accepted(scans[..n]) == Accepted(scans)
    decreases |scans|
  {
    if n == |scans| {
      assert scans[..n] == scans;
    } else {
      var before := scans[..|scans| - 1];
      assert before[..n] == scans[..n];
      ReportedGrows(before, n);
      SameReportsSameAccepted(before, n);
    }
  }

  lemma {:induction false} ReportedGrows(scans: seq<string>, n: nat)
    requires n <= |scans|
    ensures Reported(scans[..n]) <= Reported(scans)
  {
    if n == |scans| {
      assert scans[..n] == scans;
    } else {
      var before := scans[..|scans| - 1];
      assert before[..n] == scans[..n];
      ReportedGrows(before, n);
    }
  }

  /** Two equal scans in a row settle what counts. */
  lemma StableIsAccepted(scans: seq<string>)
    requires scans != []
    ensures var n := |scans|; n >= 2 && scans[n - 1] == scans[n - 2] ==> Accepted(scans) == scans[n - 1]
  {}

  /** No wake-up is lost: a report that no refresh was started after, or only one that ended in a conflict, leaves a
      token, a refresh owed or one under way, until the context ends. Once nothing is pending, the last refresh
      without a conflict began after the inventory that counts, and so after the one seen last when that is stable,
      unless there never was a change. */
  lemma NoLostWakeup(steps: seq<Step>)
    requires Run(START, steps).Some?
    ensures var s := Run(START, steps).value;
            && s.covered <= |s.scans| && s.received <= Reported(s.scans)
            && (!s.done && Reported(s.scans[..s.covered]) < Reported(s.scans) ==>
                  || s.token || s.receiver == Owing || s.receiver == Waiting
                  || (s.receiver == Refreshing && s.began <= |s.scans| && Reported(s.scans[..s.began]) == Reported(s.scans)))
            && (!s.done && s.receiver == Idle && !s.token && s.scans != [] ==>
                  if s.covered == 0 then Reported(s.scans) == 0
                  else
                    && Accepted(s.scans[..s.covered]) == Accepted(s.scans)
                    && (var n := |s.scans|; n >= 2 && s.scans[n - 1] == s.scans[n - 2] ==> Accepted(s.scans[..s.covered]) == s.scans[n - 1]))
  {
    hide Next;
    hide Accepted;
    hide Reports;
    hide After;
    StartInv();
    RunKeeps(START, steps);
    var s := Run(START, steps).value;
    if !s.done && s.receiver == Idle && !s.token && s.scans != [] {
      if s.covered > 0 {
        SameReportsSameAccepted(s.scans, s.covered);
        StableIsAccepted(s.scans);
      } else {
        assert s.scans[..0] == [];
      }
    }
  }
}
