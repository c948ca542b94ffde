/** When a Cancel is in time, and which finished jobs have put their body in place. */
module DownloadCancel {
  import opened Wrappers
  import opened Downloads
  import opened DownloadRuns

  // ---------- in time ----------

  /** The job is cancelled, nothing of it is in place, and it still has to look at its context. */
  ghost predicate Stopped(s: Sys, id: Id) {
    && id in s.t.jobs && id in s.contexts && !Installed(s.installs, id)
    && (id in s.routines ==> s.routines[id] != Flushing && s.routines[id] != Renaming)
  }

  lemma StoppedStep(s: Sys, e: Event, id: Id)
    requires Stopped(s, id) && Next(s, e).Some?
    ensures Stopped(Next(s, e).value, id)
  {
    if e.id != id {
      ElseSame(s, e, id);
      OtherInstalls(s, e, id);
      hide Next;
    } else {
      NoRename(s, e);
      OtherInstalls(s, e, id);
      StoppedOwn(s, e);
      hide Next;
    }
  }

  lemma NoRename(s: Sys, e: Event)
    requires Stopped(s, e.id) && Next(s, e).Some?
    ensures !e.Rename?
  {
    hide Installed;
    if e.Rename? { OfRoutine(s, e); }
    hide Next;
    hide BeginStep;
  }

  lemma StoppedOwn(s: Sys, e: Event)
    requires Stopped(s, e.id) && Next(s, e).Some? && !e.Rename?
    ensures var n := Next(s, e).value;
            && e.id in n.t.jobs && e.id in n.contexts
            && (e.id in n.routines ==> n.routines[e.id] != Flushing && n.routines[e.id] != Renaming)
  {
    hide Installed;
    if Early(e) || Copy(e) || Late(e) {
      StepEffect(s, e);
      NeverOnward(s, e);
      if ChangeOf(s.routines[e.id], e).Some? { UpdatedTables(s.t, e.id, ChangeOf(s.routines[e.id], e).value); }
      hide Next;
      hide UpdateTables;
    } else if e.Clear? {
      ClearState(s, e.id);
      hide Next;
    } else {
      hide NextOf;
    }
  }

  /** With its context cancelled, a goroutine that has not passed the last look does not pass it. */
  lemma NeverOnward(s: Sys, e: Event)
    requires Next(s, e).Some? && (Early(e) || Copy(e) || Late(e)) && e.id in s.contexts
    requires e.id in s.routines && s.routines[e.id] != Flushing && s.routines[e.id] != Renaming
    ensures var n := Next(s, e).value; e.id in n.routines && n.routines[e.id] != Flushing && n.routines[e.id] != Renaming
  {
    if Early(e) { EarlyOnward(s, e); } else if Copy(e) { CopyOnward(s, e); } else { LateOnward(s, e); }
    hide Next;
  }

  lemma EarlyOnward(s: Sys, e: Event)
    requires Next(s, e).Some? && Early(e)
    ensures var n := Next(s, e).value; e.id in n.routines && n.routines[e.id] != Flushing && n.routines[e.id] != Renaming
  {
    hide UpdateTables;
    hide PartPath;
    hide RemoveFile;
    hide Possible;
  }

  lemma CopyOnward(s: Sys, e: Event)
    requires Next(s, e).Some? && Copy(e)
    ensures var n := Next(s, e).value; e.id in n.routines && n.routines[e.id] != Flushing && n.routines[e.id] != Renaming
  {
    hide UpdateTables;
    hide PartPath;
    hide RemoveFile;
    hide Possible;
  }

  lemma LateOnward(s: Sys, e: Event)
    requires Next(s, e).Some? && Late(e) && e.id in s.contexts
    requires e.id in s.routines && s.routines[e.id] != Flushing && s.routines[e.id] != Renaming
    ensures var n := Next(s, e).value; e.id in n.routines && n.routines[e.id] != Flushing && n.routines[e.id] != Renaming
  {
    hide UpdateTables;
    hide PartPath;
    hide RemoveFile;
  }

  lemma {:induction false} StoppedForever(s: Sys, events: seq<Event>, id: Id)
    requires Stopped(s, id) && Run(s, events).Some?
    ensures !Installed(Run(s, events).value.installs, id)
    decreases |events|
  {
    hide Next;
    hide Stopped;
    if events != [] {
      StoppedStep(s, events[0], id);
      StoppedForever(Next(s, events[0]).value, events[1..], id);
    } else {
      StoppedHolds(s, id);
    }
  }

  lemma StoppedHolds(s: Sys, id: Id)
    ensures Stopped(s, id) ==> !Installed(s.installs, id)
  {}

  /** The goroutine is past its last look at the context, or its body is in place already. */
  ghost predicate Past(s: Sys, id: Id) {
    Installed(s.installs, id) || (id in s.routines && (s.routines[id] == Flushing || s.routines[id] == Renaming))
  }

  /** The state after a Cancel. */
  function Cancelled(s: Sys, id: Id): Sys {
    Next(s, Event.Cancel(id)).value
  }

  lemma CancelStops(s: Sys, id: Id, initial: map<string, Bytes>)
    requires Inv(s, initial) && CancelTables(s.t, id).1 == Done && !Past(s, id)
    ensures Stopped(Cancelled(s, id), id)
  {
    hide TargetsOk;
    hide InstallsOk;
    hide Installed;
    UnsettledRuns(s, id);
    hide JobsOk;
  }

  /** What is left to do for a goroutine past its last look. */
  function Rest(pc: Pc, id: Id): seq<Event> {
    if pc == Flushing then [Flush(id, true, false), Rename(id, Renamed(true))]
    else if pc == Renaming then [Rename(id, Renamed(true))]
    else []
  }

  lemma RenamePossible(s: Sys, id: Id, body: Bytes)
    requires id in s.routines && s.routines[id] == Renaming && id in s.t.jobs
    requires PartPath(s.t.jobs[id].target) in s.files && s.files[PartPath(s.t.jobs[id].target)] == body
    ensures var n := Next(s, Rename(id, Renamed(true)));
            n.Some? && Installed(n.value.installs, id) && Run(s, [Rename(id, Renamed(true))]) == n
  {
    var n := Next(s, Rename(id, Renamed(true))).value;
    InstalledMore(s.installs, Install(s.t.jobs[id].target, id, body), id);
    assert [Rename(id, Renamed(true))][1..] == [];
    assert Run(n, []) == Some(n);
  }

  lemma CancelMisses(s: Sys, id: Id, initial: map<string, Bytes>)
    requires Inv(s, initial) && CancelTables(s.t, id).1 == Done && Past(s, id)
    ensures id in s.routines
    ensures var run := Run(Cancelled(s, id), Rest(s.routines[id], id)); run.Some? && Installed(run.value.installs, id)
  {
    hide TargetsOk;
    hide InstallsOk;
    hide Installed;
    UnsettledRuns(s, id);
    assert RoutineOk(s, id, s.routines[id]);
    hide JobsOk;
    hide IndexOk;
    hide IsGguf;
    var pc := s.routines[id];
    var c := Cancelled(s, id);
    assert c.routines == s.routines && c.files == s.files && c.installs == s.installs && c.t.jobs[id].target == s.t.jobs[id].target;
    if pc == Flushing {
      FlushRename(c, id, s.served[id]);
    } else if pc == Renaming {
      RenamePossible(c, id, s.served[id]);
    } else {
      assert Run(c, []) == Some(c);
    }
  }

  lemma FlushRename(s: Sys, id: Id, body: Bytes)
    requires id in s.routines && s.routines[id] == Flushing && id in s.t.jobs
    requires PartPath(s.t.jobs[id].target) in s.files && s.files[PartPath(s.t.jobs[id].target)] == body
    ensures var run := Run(s, [Flush(id, true, false), Rename(id, Renamed(true))]);
            run.Some? && Installed(run.value.installs, id)
  {
    hide Run;
    hide Installed;
    var events := [Flush(id, true, false), Rename(id, Renamed(true))];
    assert events[0..] == events && events[1..] == [Rename(id, Renamed(true))];
    var n := Follows(s, events, 0);
    RenamePossible(n, id, body);
  }

  /** A Cancel that is reported done keeps the download's body from ever being put in place, if and only if the job's
      goroutine has not passed its last look at the context, and its body is not in place already. */
  lemma CancelInTime(s: Sys, id: Id, initial: map<string, Bytes>)
    requires Inv(s, initial) && CancelTables(s.t, id).1 == Done
    ensures (forall events: seq<Event> ::
               Run(Cancelled(s, id), events).Some? ==> !Installed(Run(Cancelled(s, id), events).value.installs, id))
       <==> !Past(s, id)
  {
    hide Run;
    hide Next;
    hide Inv;
    hide Installed;
    hide Past;
    hide Cancelled;
    hide CancelTables;
    if Past(s, id) {
      CancelMisses(s, id, initial);
      assert Run(Cancelled(s, id), Rest(s.routines[id], id)).Some?;
    } else {
      CancelStops(s, id, initial);
      forall events: seq<Event> | Run(Cancelled(s, id), events).Some?
        ensures !Installed(Run(Cancelled(s, id), events).value.installs, id)
      {
        StoppedForever(Cancelled(s, id), events, id);
      }
    }
  }

  // ---------- a run from the start that passes the last look ----------

  lemma Follows(s: Sys, events: seq<Event>, k: nat) returns (n: Sys)
    requires k < |events| && Next(s, events[k]).Some?
    ensures Next(s, events[k]) == Some(n) && Run(s, events[k..]) == Run(n, events[k + 1..])
  {
    hide Next;
    n := Next(s, events[k]).value;
    assert events[k..][1..] == events[k + 1..];
  }

  /** The job runs, its goroutine stands at some place, and its response has the given body. */
  ghost predicate At(s: Sys, id: Id, target: string, body: Bytes, pc: Pc) {
    && id in s.t.jobs && s.t.jobs[id].state == Running && s.t.jobs[id].target == target
    && id in s.routines && s.routines[id] == pc && id !in s.contexts
    && (pc == Preparing || pc == Opening || (id in s.served && s.served[id] == body))
  }

  lemma Started(files: map<string, Bytes>, id: Id, target: string, body: Bytes)
    requires id != "" && IsGguf(target)
    ensures var s1 := Next(Init(files), Start(id, target, |body|));
            s1.Some? && Next(s1.value, Event.Begin(id)).Some? && At(Next(s1.value, Event.Begin(id)).value, id, target, body, Preparing)
  {
    hide IsGguf;
  }

  /** The place after a step of a download that goes well. */
  function Onward(body: Bytes, pc: Pc): Pc {
    match pc
    case Preparing => Opening
    case Opening => Opened
    case Opened => Creating
    case Creating => Copying([])
    case Copying(_) => Reporting(body, |body|, Eof)
    case Reporting(_, _, _) => AtEnd
    case _ => Flushing
  }

  function Well(id: Id, body: Bytes, pc: Pc): Event {
    match pc
    case Preparing => Prepare(id, true)
    case Opening => Open(id, Accepted(body))
    case Opened => Event.SetTotal(id, |body|)
    case Creating => Create(id, true)
    case Copying(_) => Read(id, body, Eof)
    case Reporting(_, _, _) => Report(id, false)
    case _ => CheckContext(id, false)
  }

  lemma GoesOn(s: Sys, id: Id, target: string, body: Bytes, pc: Pc)
    requires At(s, id, target, body, pc)
    requires pc in {Preparing, Opening, Opened, Creating, Copying([]), Reporting(body, |body|, Eof), AtEnd}
    ensures var n := Next(s, Well(id, body, pc)); n.Some? && At(n.value, id, target, body, Onward(body, pc))
  {
    hide PartPath;
    hide IsGguf;
    hide Possible;
    assert [] + body == body;
  }

  /** The places before the last look at the context, in their order. */
  function Before(body: Bytes, pc: Pc): nat {
    if pc == Preparing then 7
    else if pc == Opening then 6
    else if pc == Opened then 5
    else if pc == Creating then 4
    else if pc == Copying([]) then 3
    else if pc == Reporting(body, |body|, Eof) then 2
    else if pc == AtEnd then 1
    else 0
  }

  /** What is left, from a place on, of a download that goes well up to the last look at its context. */
  function Onwards(id: Id, body: Bytes, pc: Pc): seq<Event>
    decreases Before(body, pc)
  {
    if Before(body, pc) == 0 then [] else [Well(id, body, pc)] + Onwards(id, body, Onward(body, pc))
  }

  function UpToFlush(id: Id, target: string, body: Bytes): seq<Event> {
    [Start(id, target, |body|), Event.Begin(id)] + Onwards(id, body, Preparing)
  }

  lemma {:induction false} OnwardsRuns(s: Sys, id: Id, target: string, body: Bytes, pc: Pc) returns (n: Sys)
    requires At(s, id, target, body, pc) && (Before(body, pc) == 0 ==> pc == Flushing)
    ensures Run(s, Onwards(id, body, pc)) == Some(n) && At(n, id, target, body, Flushing)
    decreases Before(body, pc)
  {
    hide Next;
    hide At;
    hide Well;
    if Before(body, pc) == 0 {
      n := s;
    } else {
      GoesOn(s, id, target, body, pc);
      n := OnwardsRuns(Next(s, Well(id, body, pc)).value, id, target, body, Onward(body, pc));
      assert Onwards(id, body, pc)[1..] == Onwards(id, body, Onward(body, pc));
    }
  }

  lemma FlushReached(files: map<string, Bytes>, id: Id, target: string, body: Bytes) returns (n: Sys)
    requires id != "" && IsGguf(target)
    ensures Run(Init(files), UpToFlush(id, target, body)) == Some(n) && At(n, id, target, body, Flushing)
  {
    hide Next;
    hide At;
    hide IsGguf;
    hide Onwards;
    Started(files, id, target, body);
    var start, begin, rest := Start(id, target, |body|), Event.Begin(id), Onwards(id, body, Preparing);
    var s1 := Next(Init(files), start).value;
    var s2 := Next(s1, begin).value;
    n := OnwardsRuns(s2, id, target, body, Preparing);
    assert ([start, begin] + rest)[1..] == [begin] + rest && ([begin] + rest)[1..] == rest;
    assert Run(s1, [begin] + rest) == Run(s2, rest);
  }

  lemma {:induction false} RunAppend(s: Sys, a: seq<Event>, b: seq<Event>)
    requires Run(s, a).Some?
    ensures Run(s, a + b) == Run(Run(s, a).value, b)
    decreases |a|
  {
    hide Next;
    if a == [] {
      assert a + b == b;
    } else {
      assert (a + b)[1..] == a[1..] + b;
      RunAppend(Next(s, a[0]).value, a[1..], b);
    }
  }

  /** From a fresh manager, for every file name and body: a job that ends as cancelled, with its body in place. */
  lemma CancelledYetInstalled(files: map<string, Bytes>, id: Id, target: string, body: Bytes)
    requires id != "" && IsGguf(target)
    ensures var events := UpToFlush(id, target, body)
                          + [Event.Cancel(id), Flush(id, true, false), Rename(id, Renamed(true)), Event.Settle(id)];
            var end := Run(Init(files), events);
            && end.Some? && id in end.value.t.jobs && end.value.t.jobs[id].state == JobState.Cancelled
            && Lookup(end.value.files, target) == Some(body)
  {
    hide Run;
    hide Next;
    hide Inv;
    hide Lookup;
    var s := FlushReached(files, id, target, body);
    hide UpToFlush;
    RunFromStart(files, UpToFlush(id, target, body));
    var n := CancelTooLate(s, id, files);
    RunAppend(Init(files), UpToFlush(id, target, body),
              [Event.Cancel(id), Flush(id, true, false), Rename(id, Renamed(true)), Event.Settle(id)]);
  }

  // ---------- which finished jobs are in place ----------

  predicate RenamedIn(events: seq<Event>, id: Id, synced: bool) {
    Rename(id, Renamed(synced)) in events
  }

  /** How the job, its goroutine and the renames so far fit together. */
  ghost predicate Tracked(s: Sys, past: seq<Event>, id: Id) {
    && (Installed(s.installs, id) <==> RenamedIn(past, id, true) || RenamedIn(past, id, false))
    && !(RenamedIn(past, id, true) && RenamedIn(past, id, false))
    && (id in s.routines && s.routines[id].Returned? && Installed(s.installs, id) ==>
          (RenamedIn(past, id, true) <==> s.routines[id].outcome == Success))
    && (id in s.t.jobs && s.t.jobs[id].state == Failed ==> !RenamedIn(past, id, true))
    && (id in s.t.jobs && s.t.jobs[id].state == Completed ==> RenamedIn(past, id, true))
  }

  lemma RenamedMore(past: seq<Event>, e: Event, id: Id, synced: bool)
    ensures RenamedIn(past + [e], id, synced) <==> RenamedIn(past, id, synced) || e == Rename(id, Renamed(synced))
  {}

  lemma TrackedStep(s: Sys, past: seq<Event>, e: Event, id: Id, initial: map<string, Bytes>)
    requires Inv(s, initial) && Tracked(s, past, id) && Next(s, e).Some?
    ensures Tracked(Next(s, e).value, past + [e], id)
  {
    RenamedMore(past, e, id, true);
    RenamedMore(past, e, id, false);
    if id !in s.t.jobs { NeverInstalled(s, id); } else { InvJob(s, id, initial); }
    hide Inv;
    if e.Rename? && e.id == id && e.outcome.Renamed? {
      RenamedStep(s, past, e, id);
    } else {
      OtherInstalls(s, e, id);
      OtherStep(s, past, e, id);
    }
  }

  lemma RenamedStep(s: Sys, past: seq<Event>, e: Event, id: Id)
    requires Tracked(s, past, id) && Next(s, e).Some? && e.Rename? && e.id == id && e.outcome.Renamed?
    requires id in s.t.jobs && JobOk(s, id)
    ensures Tracked(Next(s, e).value, past + [e], id)
  {
    hide PartPath;
    RenamedMore(past, e, id, true);
    RenamedMore(past, e, id, false);
    var n := Next(s, e).value;
    assert !Installed(s.installs, id);
    InstalledMore(s.installs, n.installs[|s.installs|], id);
    hide Installed;
  }

  lemma OtherStep(s: Sys, past: seq<Event>, e: Event, id: Id)
    requires Tracked(s, past, id) && Next(s, e).Some? && !(e.Rename? && e.id == id && e.outcome.Renamed?)
    requires id in s.t.jobs ==> JobOk(s, id)
    requires id !in s.t.jobs ==> !Installed(s.installs, id)
    requires Installed(Next(s, e).value.installs, id) <==> Installed(s.installs, id)
    ensures Tracked(Next(s, e).value, past + [e], id)
  {
    hide Installed;
    RenamedMore(past, e, id, true);
    RenamedMore(past, e, id, false);
    hide RenamedIn;
    if e.id != id {
      ElseSame(s, e, id);
    } else {
      OwnOutcome(s, e);
    }
    hide Next;
    hide JobOk;
  }

  /** How a job's own steps, other than its rename, end its goroutine's work and settle the job. */
  lemma OwnOutcome(s: Sys, e: Event)
    requires Next(s, e).Some? && !(e.Rename? && e.outcome.Renamed?)
    requires e.id in s.t.jobs ==> JobOk(s, e.id)
    requires e.id !in s.t.jobs ==> !Installed(s.installs, e.id)
    ensures var n := Next(s, e).value;
            && (e.id in n.routines && n.routines[e.id].Returned? && Installed(s.installs, e.id) ==>
                  e.id in s.routines && s.routines[e.id] == n.routines[e.id])
            && (e.id in n.t.jobs && n.t.jobs[e.id].state in {Failed, Completed} ==>
                  e.id in s.t.jobs
                  && (n.t.jobs[e.id].state == s.t.jobs[e.id].state
                      || (e.id in s.routines && s.routines[e.id].Returned?
                          && (n.t.jobs[e.id].state == Completed <==> s.routines[e.id].outcome == Success)
                          && (s.routines[e.id].outcome == Success ==> Installed(s.installs, e.id)))))
  {
    hide Installed;
    if Early(e) || Copy(e) || Late(e) {
      StepEffect(s, e);
      ReturnsFrom(s, e);
      OwnSettles(s, Next(s, e).value, e);
      hide Next;
    } else if e.Clear? {
      ClearState(s, e.id);
      hide Next;
    } else {
      hide NextOf;
    }
  }

  lemma OwnSettles(s: Sys, n: Sys, e: Event)
    requires Early(e) || Copy(e) || Late(e)
    requires e.id in s.t.jobs && e.id in s.routines && JobOk(s, e.id)
    requires (s.routines[e.id].Returned? <==> e.Settle?) && s.routines[e.id] != Exiting
    requires OwnEffect(s, n, e.id, ChangeOf(s.routines[e.id], e)) && (e.Settle? ==> n.routines[e.id] == Exiting)
    ensures n.routines[e.id].Returned? && Installed(s.installs, e.id) ==> s.routines[e.id] == n.routines[e.id]
    ensures e.id in n.t.jobs && n.t.jobs[e.id].state in {Failed, Completed} ==>
              || n.t.jobs[e.id].state == s.t.jobs[e.id].state
              || (s.routines[e.id].Returned?
                  && (n.t.jobs[e.id].state == Completed <==> s.routines[e.id].outcome == Success)
                  && (s.routines[e.id].outcome == Success ==> Installed(s.installs, e.id)))
  {
    hide Installed;
    hide PartHolds;
    hide Lookup;
  }

  lemma {:induction false} RunTracked(s: Sys, past: seq<Event>, events: seq<Event>, id: Id, initial: map<string, Bytes>)
    requires Inv(s, initial) && Tracked(s, past, id) && Run(s, events).Some?
    ensures Tracked(Run(s, events).value, past + events, id)
    decreases |events|
  {
    hide Inv;
    hide Tracked;
    hide Next;
    if events == [] {
      assert past + events == past;
    } else {
      TrackedStep(s, past, events[0], id, initial);
      StepKeeps(s, events[0], initial);
      RunTracked(Next(s, events[0]).value, past + [events[0]], events[1..], id, initial);
      assert past + [events[0]] + events[1..] == past + events;
    }
  }

  /** Over every run: a job's body is in place if and only if its rename went through. A completed job's rename was
      also synced; a failed job is in place exactly when it was renamed and the sync after it failed. */
  lemma InstalledExactly(files: map<string, Bytes>, events: seq<Event>, id: Id)
    requires Run(Init(files), events).Some?
    ensures var s := Run(Init(files), events).value;
            && (Installed(s.installs, id) <==> RenamedIn(events, id, true) || RenamedIn(events, id, false))
            && (id in s.t.jobs && s.t.jobs[id].state == Completed ==> RenamedIn(events, id, true))
            && (id in s.t.jobs && s.t.jobs[id].state == Failed ==> (Installed(s.installs, id) <==> RenamedIn(events, id, false)))
  {
    hide Next;
    InitInv(files);
    hide Inv;
    RunTracked(Init(files), [], events, id, files);
    assert [] + events == events;
  }

  lemma InitInv(files: map<string, Bytes>)
    ensures Inv(Init(files), files)
  {
    assert Run(Init(files), []) == Some(Init(files));
    RunFromStart(files, []);
  }
}
