/** How a job ends, told from the events of the run alone. */
module DownloadEnds {
  import opened Wrappers
  import opened Downloads
  import opened DownloadRuns
  import opened DownloadCancel

  // ---------- what the events of a run say of a job ----------

  predicate Open(s: Sys, id: Id) {
    id in s.t.jobs && s.t.jobs[id].state in {Queued, Running}
  }

  /** At place i of the run the job is cancelled while it is queued or running. */
  ghost predicate CancelledAt(files: map<string, Bytes>, events: seq<Event>, id: Id, i: nat) {
    && i < |events| && events[i] == Event.Cancel(id)
    && Run(Init(files), events[..i]).Some? && Open(Run(Init(files), events[..i]).value, id)
  }

  ghost predicate WasCancelled(files: map<string, Bytes>, events: seq<Event>, id: Id) {
    exists i: nat :: CancelledAt(files, events, id, i)
  }

  ghost predicate WasAlready(events: seq<Event>, id: Id) {
    exists target, size :: StoreAlready(id, target, size) in events
  }

  /** The size a job was entered with, or the last length above 0 that a response announced. */
  function Announced(events: seq<Event>, id: Id): int {
    if events == [] then 0
    else
      var init, last := events[..|events| - 1], events[|events| - 1];
      if last.id == id && (last.Start? || last.StoreAlready?) then last.size
      else if last.id == id && last.SetTotal? && last.total > 0 then last.total
      else Announced(init, id)
  }

  lemma AnnouncedMore(past: seq<Event>, e: Event, id: Id)
    ensures Announced(past + [e], id)
         == if e.id == id && (e.Start? || e.StoreAlready?) then e.size
            else if e.id == id && e.SetTotal? && e.total > 0 then e.total
            else Announced(past, id)
  {
    assert (past + [e])[..|past|] == past;
  }

  lemma AlreadyMore(past: seq<Event>, e: Event, id: Id)
    ensures WasAlready(past + [e], id) <==> WasAlready(past, id) || (e.StoreAlready? && e.id == id)
  {
    if e.StoreAlready? && e.id == id { assert StoreAlready(id, e.target, e.size) in past + [e]; }
    if WasAlready(past, id) {
      var target, size :| StoreAlready(id, target, size) in past;
      assert StoreAlready(id, target, size) in past + [e];
    }
  }

  lemma CancelledMore(files: map<string, Bytes>, past: seq<Event>, e: Event, id: Id)
    requires Run(Init(files), past).Some?
    ensures WasCancelled(files, past + [e], id)
       <==> WasCancelled(files, past, id) || (e == Event.Cancel(id) && Open(Run(Init(files), past).value, id))
  {
    hide Run;
    var more := past + [e];
    assert more[..|past|] == past;
    forall i: nat | i < |past| ensures CancelledAt(files, more, id, i) <==> CancelledAt(files, past, id, i) {
      assert more[..i] == past[..i];
    }
    assert CancelledAt(files, more, id, |past|)
      <==> (e == Event.Cancel(id) && Open(Run(Init(files), past).value, id));
    hide CancelledAt;
    assert forall i: nat :: i > |past| ==> !CancelledAt(files, more, id, i) by { NotBeyond(files, more, id); }
    assert forall i: nat :: i >= |past| ==> !CancelledAt(files, past, id, i) by { NotBeyond(files, past, id); }
  }

  lemma NotBeyond(files: map<string, Bytes>, events: seq<Event>, id: Id)
    ensures forall i: nat :: i >= |events| ==> !CancelledAt(files, events, id, i)
  {}

  // ---------- how the state follows the events ----------

  /** An error that a cancelled context caused is on its way out. */
  predicate Aborting(pc: Pc) {
    pc == Returned(Aborted) || (pc.Reporting? && pc.end == Error(Aborted))
  }

  ghost predicate Follows(s: Sys, past: seq<Event>, cancelled: bool, id: Id) {
    if id !in s.t.jobs then
      !cancelled && !WasAlready(past, id) && Event.Begin(id) !in past && Event.Settle(id) !in past && id !in s.routines
    else
      && (cancelled <==> s.t.jobs[id].state == Cancelled)
      && (WasAlready(past, id) <==> s.t.jobs[id].state == AlreadyDownloaded)
      && s.t.jobs[id].total == Announced(past, id)
      && (if id in s.routines then
            && !WasAlready(past, id)
            && (Event.Begin(id) in past <==> s.routines[id] != Spawned)
            && (Event.Settle(id) in past <==> s.routines[id] == Exiting)
            && (Aborting(s.routines[id]) ==> s.t.jobs[id].state == Cancelled)
          else
            && (Event.Begin(id) in past <==> !WasAlready(past, id))
            && (Event.Settle(id) in past <==> !WasAlready(past, id)))
  }

  /** Where a step of a goroutine leads. */
  lemma EarlyPlace(s: Sys, e: Event)
    requires Next(s, e).Some? && Early(e) && e.id in s.routines
    ensures var n := Next(s, e).value;
            && e.id in n.routines
            && (e.Begin? <==> s.routines[e.id] == Spawned) && n.routines[e.id] != Spawned && n.routines[e.id] != Exiting
            && (Aborting(n.routines[e.id]) ==> e.id in s.contexts)
  {
    hide UpdateTables;
    hide PartPath;
    hide RemoveFile;
  }

  lemma CopyPlace(s: Sys, e: Event)
    requires Next(s, e).Some? && Copy(e) && e.id in s.routines
    ensures var n := Next(s, e).value;
            && e.id in n.routines
            && s.routines[e.id] != Spawned && n.routines[e.id] != Spawned && n.routines[e.id] != Exiting
            && (Aborting(n.routines[e.id]) ==> e.id in s.contexts || Aborting(s.routines[e.id]))
  {
    hide UpdateTables;
    hide PartPath;
    hide RemoveFile;
  }

  lemma LatePlace(s: Sys, e: Event)
    requires Next(s, e).Some? && Late(e) && e.id in s.routines
    ensures var n := Next(s, e).value;
            && e.id in n.routines
            && s.routines[e.id] != Spawned && n.routines[e.id] != Spawned && (n.routines[e.id] == Exiting <==> e.Settle?)
            && (Aborting(n.routines[e.id]) ==> e.id in s.contexts)
  {
    hide UpdateTables;
    hide PartPath;
    hide RemoveFile;
  }

  lemma EventMore(past: seq<Event>, e: Event, x: Event)
    ensures x in past + [e] <==> x in past || x == e
  {}

  /** What such a step does to the state and the size of its job. */
  lemma WorkChange(s: Sys, e: Event)
    requires Next(s, e).Some? && (Early(e) || Copy(e) || Late(e))
    ensures var n := Next(s, e).value;
            && e.id in s.t.jobs && e.id in n.t.jobs && e.id in s.routines && e.id in n.routines
            && n.t.jobs[e.id].total == (if e.SetTotal? && e.total > 0 then e.total else s.t.jobs[e.id].total)
            && (e.Begin? ==> n.t.jobs[e.id].state == if s.t.jobs[e.id].state == Cancelled then Cancelled else Running)
            && (!e.Begin? && !e.Settle? ==> n.t.jobs[e.id].state == s.t.jobs[e.id].state)
            && (e.Settle? ==> s.routines[e.id].Returned? && n.t.jobs[e.id].state != AlreadyDownloaded)
            && (e.Settle? ==>
                  (n.t.jobs[e.id].state == Cancelled <==> s.t.jobs[e.id].state == Cancelled || s.routines[e.id].outcome == Aborted))
  {
    StepEffect(s, e);
    ReturnsFrom(s, e);
    hide Next;
    hide Lookup;
  }

  /** The step of the job's goroutine, but for its rename and its end. */
  lemma WorkFollows(s: Sys, past: seq<Event>, cancelled: bool, e: Event)
    requires Follows(s, past, cancelled, e.id) && Next(s, e).Some? && (Early(e) || Copy(e) || Late(e))
    requires e.id in s.t.jobs ==> JobOk(s, e.id)
    ensures Follows(Next(s, e).value, past + [e], cancelled, e.id)
  {
    var id := e.id;
    AnnouncedMore(past, e, id);
    AlreadyMore(past, e, id);
    EventMore(past, e, Event.Begin(id));
    EventMore(past, e, Event.Settle(id));
    WorkChange(s, e);
    ReturnsFrom(s, e);
    OpenJob(s, id);
    if Early(e) { EarlyPlace(s, e); } else if Copy(e) { CopyPlace(s, e); } else { LatePlace(s, e); }
    hide JobOk;
    hide Next;
    hide WasAlready;
    hide Announced;
  }

  lemma OpenJob(s: Sys, id: Id)
    requires id in s.t.jobs && JobOk(s, id)
    ensures id in s.contexts ==> s.t.jobs[id].state == Cancelled
    ensures id in s.routines && s.routines[id] != Exiting ==> s.t.jobs[id].state in {Queued, Running, Cancelled}
    ensures id in s.routines ==> (s.t.jobs[id].state == Queued ==> s.routines[id] == Spawned) && (s.routines[id] == Spawned ==> s.t.jobs[id].state != Running)
    ensures id !in s.routines || s.routines[id] == Exiting ==> Terminal(s.t.jobs[id].state)
  {
    hide Installed;
    hide PartHolds;
    hide Delivered;
  }

  lemma RenameFollows(s: Sys, past: seq<Event>, cancelled: bool, e: Event)
    requires Follows(s, past, cancelled, e.id) && Next(s, e).Some? && e.Rename? && e.outcome.Renamed?
    ensures Follows(Next(s, e).value, past + [e], cancelled, e.id)
  {
    var id := e.id;
    AnnouncedMore(past, e, id);
    AlreadyMore(past, e, id);
    EventMore(past, e, Event.Begin(id));
    EventMore(past, e, Event.Settle(id));
    RenameState(s, id, e.outcome.synced);
    hide Next;
    hide WasAlready;
    hide Announced;
  }

  lemma ClearFollows(s: Sys, past: seq<Event>, cancelled: bool, e: Event)
    requires Follows(s, past, cancelled, e.id) && Next(s, e).Some? && e.Clear?
    ensures Follows(Next(s, e).value, past + [e], cancelled, e.id)
  {
    var id := e.id;
    AnnouncedMore(past, e, id);
    AlreadyMore(past, e, id);
    EventMore(past, e, Event.Begin(id));
    EventMore(past, e, Event.Settle(id));
    ClearState(s, id);
    ClearedJobs(s.t, id);
    hide ClearTables;
    hide Next;
    hide WasAlready;
    hide Announced;
  }

  lemma StartFollows(s: Sys, past: seq<Event>, cancelled: bool, e: Event)
    requires Follows(s, past, cancelled, e.id) && Next(s, e).Some? && e.Start?
    requires e.id !in s.t.jobs ==> e.id !in s.t.active.Values
    ensures Follows(Next(s, e).value, past + [e], cancelled, e.id)
  {
    var id := e.id;
    AnnouncedMore(past, e, id);
    AlreadyMore(past, e, id);
    EventMore(past, e, Event.Begin(id));
    EventMore(past, e, Event.Settle(id));
    hide JobOk;
    hide NextOf;
    hide WasAlready;
    hide Announced;
    hide IsGguf;
  }

  lemma AlreadyFollows(s: Sys, past: seq<Event>, cancelled: bool, e: Event)
    requires Follows(s, past, cancelled, e.id) && Next(s, e).Some? && e.StoreAlready?
    ensures Follows(Next(s, e).value, past + [e], cancelled, e.id)
  {
    var id := e.id;
    AnnouncedMore(past, e, id);
    AlreadyMore(past, e, id);
    EventMore(past, e, Event.Begin(id));
    EventMore(past, e, Event.Settle(id));
    hide JobOk;
    hide NextOf;
    hide WasAlready;
    hide Announced;
    hide IsGguf;
  }

  lemma CancelFollows(s: Sys, past: seq<Event>, cancelled: bool, e: Event)
    requires Follows(s, past, cancelled, e.id) && Next(s, e).Some? && e.Cancel?
    requires e.id in s.t.jobs ==> JobOk(s, e.id)
    ensures Follows(Next(s, e).value, past + [e], cancelled || Open(s, e.id), e.id)
  {
    var id := e.id;
    AnnouncedMore(past, e, id);
    AlreadyMore(past, e, id);
    EventMore(past, e, Event.Begin(id));
    EventMore(past, e, Event.Settle(id));
    if id in s.t.jobs { OpenJob(s, id); }
    hide JobOk;
    hide NextOf;
    hide WasAlready;
    hide Announced;
    hide IsGguf;
  }

  lemma ElseFollows(s: Sys, past: seq<Event>, cancelled: bool, e: Event, id: Id)
    requires Follows(s, past, cancelled, id) && Next(s, e).Some? && e.id != id
    ensures Follows(Next(s, e).value, past + [e], cancelled, id)
  {
    AnnouncedMore(past, e, id);
    AlreadyMore(past, e, id);
    EventMore(past, e, Event.Begin(id));
    EventMore(past, e, Event.Settle(id));
    ElseSame(s, e, id);
    hide Next;
    hide WasAlready;
    hide Announced;
  }

  /** A step of the job's own. */
  lemma OwnFollows(s: Sys, past: seq<Event>, cancelled: bool, e: Event)
    requires Follows(s, past, cancelled, e.id) && Next(s, e).Some? && !e.Cancel?
    requires e.id !in s.t.jobs ==> e.id !in s.t.active.Values
    requires e.id in s.t.jobs ==> JobOk(s, e.id)
    ensures Follows(Next(s, e).value, past + [e], cancelled, e.id)
  {
    Kinds(e);
    hide *;
    if Early(e) || Copy(e) || Late(e) {
      WorkFollows(s, past, cancelled, e);
    } else if e.Rename? {
      RenameFollows(s, past, cancelled, e);
    } else if e.Clear? {
      ClearFollows(s, past, cancelled, e);
    } else if e.Start? {
      StartFollows(s, past, cancelled, e);
    } else {
      AlreadyFollows(s, past, cancelled, e);
    }
  }

  lemma StepFollows(s: Sys, past: seq<Event>, cancelled: bool, e: Event, id: Id, initial: map<string, Bytes>)
    requires Inv(s, initial) && Follows(s, past, cancelled, id) && Next(s, e).Some?
    ensures Follows(Next(s, e).value, past + [e], cancelled || (e == Event.Cancel(id) && Open(s, id)), id)
  {
    if id in s.t.jobs { InvJob(s, id, initial); }
    ActiveJobs(s, initial, id);
    hide *;
    if e.id != id {
      ElseFollows(s, past, cancelled, e, id);
    } else if e.Cancel? {
      CancelFollows(s, past, cancelled, e);
    } else {
      OwnFollows(s, past, cancelled, e);
    }
  }

  lemma ActiveJobs(s: Sys, initial: map<string, Bytes>, id: Id)
    requires Inv(s, initial)
    ensures id !in s.t.jobs ==> id !in s.t.active.Values
  {
    hide JobsOk;
    hide InstallsOk;
    hide TargetsOk;
    hide IsGguf;
  }

  /** The run up to its last event. */
  lemma {:induction false} RunInit(s: Sys, events: seq<Event>)
    requires events != [] && Run(s, events).Some?
    ensures var before := Run(s, events[..|events| - 1]);
            before.Some? && Next(before.value, events[|events| - 1]) == Run(s, events)
    decreases |events|
  {
    hide Next;
    if |events| > 1 {
      RunInit(Next(s, events[0]).value, events[1..]);
      assert events[1..][..|events| - 2] == events[..|events| - 1][1..];
    }
  }

  lemma {:induction false} RunFollows(files: map<string, Bytes>, events: seq<Event>, id: Id)
    requires Run(Init(files), events).Some?
    ensures Follows(Run(Init(files), events).value, events, WasCancelled(files, events, id), id)
  {
    if events == [] {
      NotBeyond(files, events, id);
    } else {
      var past, e := events[..|events| - 1], events[|events| - 1];
      assert events == past + [e];
      RunInit(Init(files), events);
      hide Run;
      hide Next;
      hide Follows;
      RunFollows(files, past, id);
      RunFromStart(files, past);
      StepFollows(Run(Init(files), past).value, past, WasCancelled(files, past, id), e, id, files);
      CancelledMore(files, past, e, id);
      hide WasCancelled;
    }
  }

  lemma CancelAsked(files: map<string, Bytes>, events: seq<Event>, id: Id)
    requires WasCancelled(files, events, id)
    ensures Event.Cancel(id) in events
  {
    hide Run;
    var i: nat :| CancelledAt(files, events, id, i);
    assert events[i] == Event.Cancel(id);
  }

  /** Over every run, and whatever the interleaving: a job is cancelled exactly when it was while it was queued or
      running, and already downloaded exactly when it was stored so. Any other job is queued until its goroutine begins,
      running until that settles it, and then completed if its file was renamed and synced, and failed otherwise.
      Its size is the one it was entered with, or else what the response announced. */
  lemma JobFollowsEvents(files: map<string, Bytes>, events: seq<Event>, id: Id)
    requires Run(Init(files), events).Some? && id in Run(Init(files), events).value.t.jobs
    ensures var job := Run(Init(files), events).value.t.jobs[id];
            && (job.state == Cancelled <==> WasCancelled(files, events, id))
            && (job.state == Cancelled ==> Event.Cancel(id) in events)
            && (job.state == AlreadyDownloaded <==> WasAlready(events, id))
            && (!WasCancelled(files, events, id) && !WasAlready(events, id) ==>
                  && (job.state == Queued <==> Event.Begin(id) !in events)
                  && (job.state == Running <==> Event.Begin(id) in events && Event.Settle(id) !in events)
                  && (job.state == Completed <==> Event.Settle(id) in events && RenamedIn(events, id, true))
                  && (job.state == Failed <==> Event.Settle(id) in events && !RenamedIn(events, id, true)))
            && job.total == Announced(events, id)
  {
    RunFollows(files, events, id);
    RunFromStart(files, events);
    RunRenames(files, events, id);
    var s := Run(Init(files), events).value;
    InvJob(s, id, files);
    OpenJob(s, id);
    if WasCancelled(files, events, id) { CancelAsked(files, events, id); }
    hide Run;
    hide Inv;
    hide JobOk;
    hide WasCancelled;
    Ends(s, events, WasCancelled(files, events, id), id);
  }

  lemma RunRenames(files: map<string, Bytes>, events: seq<Event>, id: Id)
    requires Run(Init(files), events).Some? && id in Run(Init(files), events).value.t.jobs
    ensures var state := Run(Init(files), events).value.t.jobs[id].state;
            (state == Completed ==> RenamedIn(events, id, true)) && (state == Failed ==> !RenamedIn(events, id, true))
  {
    InitInv(files);
    hide Inv;
    hide Next;
    hide Run;
    RunTracked(Init(files), [], events, id, files);
    assert [] + events == events;
    hide Installed;
    hide RenamedIn;
  }

  lemma Ends(s: Sys, events: seq<Event>, cancelled: bool, id: Id)
    requires id in s.t.jobs && Follows(s, events, cancelled, id)
    requires id in s.routines && s.routines[id] != Exiting ==> s.t.jobs[id].state in {Queued, Running, Cancelled}
    requires id in s.routines ==> (s.t.jobs[id].state == Queued ==> s.routines[id] == Spawned) && (s.routines[id] == Spawned ==> s.t.jobs[id].state != Running)
    requires id !in s.routines || s.routines[id] == Exiting ==> Terminal(s.t.jobs[id].state)
    requires s.t.jobs[id].state == Completed ==> RenamedIn(events, id, true)
    requires s.t.jobs[id].state == Failed ==> !RenamedIn(events, id, true)
    ensures var job := s.t.jobs[id];
            && (job.state == Cancelled <==> cancelled) && (job.state == AlreadyDownloaded <==> WasAlready(events, id))
            && (!cancelled && !WasAlready(events, id) ==>
                  && (job.state == Queued <==> Event.Begin(id) !in events)
                  && (job.state == Running <==> Event.Begin(id) in events && Event.Settle(id) !in events)
                  && (job.state == Completed <==> Event.Settle(id) in events && RenamedIn(events, id, true))
                  && (job.state == Failed <==> Event.Settle(id) in events && !RenamedIn(events, id, true)))
            && job.total == Announced(events, id)
  {
    hide WasAlready;
    hide Announced;
    hide RenamedIn;
  }
}
