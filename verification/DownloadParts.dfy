/** Which partial files a run leaves on disk. */
module DownloadParts {
  import opened Wrappers
  import opened Downloads
  import opened DownloadRuns
  import opened DownloadCancel

  /** The goroutine has made its partial file and is not done with it. */
  predicate Writing(pc: Pc) {
    pc.Copying? || pc.Reporting? || pc == AtEnd || pc == Flushing || pc == Renaming
  }

  /** The step does not fail to remove a partial file. */
  predicate Removes(e: Event) {
    match e
    case Open(_, BadStatus(removed)) => removed
    case WriteFails(_, _, removed) => removed
    case Report(_, removed) => removed
    case CheckContext(_, removed) => removed
    case Flush(_, _, removed) => removed
    case Rename(_, Rejected(removed)) => removed
    case _ => true
  }

  /** The step answers a bad status, or makes a partial file. */
  predicate Clears(e: Event) {
    (e.Open? && e.result.BadStatus?) || (e.Create? && e.ok)
  }

  /** No job of the target has done either. */
  ghost predicate Untouched(s: Sys, past: seq<Event>, p: string) {
    forall e :: e in past && Clears(e) && e.id in s.t.jobs ==> s.t.jobs[e.id].target != p
  }

  /** A partial file of a model has a goroutine that is writing it, or is there from before the run; then no job of
      its target has got a bad status or made a file of its own. */
  ghost predicate Owned(s: Sys, past: seq<Event>, initial: map<string, Bytes>) {
    && (forall e :: e in past && Clears(e) ==> e.id in s.t.jobs)
    && forall p :: IsGguf(p) && Lookup(s.files, PartPath(p)).Some? ==> OwnedAt(s, past, initial, p)
  }

  ghost predicate OwnedAt(s: Sys, past: seq<Event>, initial: map<string, Bytes>, p: string) {
    || (exists id :: Writes(s, id, p))
    || (Lookup(s.files, PartPath(p)) == Lookup(initial, PartPath(p)) && Untouched(s, past, p))
  }

  ghost predicate Writes(s: Sys, id: Id, p: string) {
    id in s.routines && id in s.t.jobs && s.t.jobs[id].target == p && Writing(s.routines[id])
  }

  /** After a step of its goroutine a partial file is gone or being written, or the step did not touch it. */
  ghost predicate PartAfter(s: Sys, n: Sys, e: Event)
    requires e.id in s.t.jobs && e.id in s.routines && e.id in n.routines
  {
    var part := PartOf(s, e.id);
    || part !in n.files || Writing(n.routines[e.id])
    || (!Writing(s.routines[e.id]) && Lookup(n.files, part) == Lookup(s.files, part) && !Clears(e))
  }

  lemma QuietPart(s: Sys, e: Event)
    requires Next(s, e).Some? && (e.Begin? || e.Prepare? || e.SetTotal?) && e.id in s.routines && e.id in s.t.jobs
    ensures e.id in Next(s, e).value.routines && PartAfter(s, Next(s, e).value, e)
  {
    hide UpdateTables;
    hide PartPath;
    hide Lookup;
  }

  lemma OpenPart(s: Sys, e: Event)
    requires Next(s, e).Some? && e.Open? && Removes(e) && e.id in s.routines && e.id in s.t.jobs
    ensures e.id in Next(s, e).value.routines && PartAfter(s, Next(s, e).value, e)
  {
    hide UpdateTables;
    hide PartPath;
  }

  lemma CreatePart(s: Sys, e: Event)
    requires Next(s, e).Some? && e.Create? && e.id in s.routines && e.id in s.t.jobs
    ensures e.id in Next(s, e).value.routines && PartAfter(s, Next(s, e).value, e)
  {
    hide UpdateTables;
    hide PartPath;
    hide Lookup;
  }

  lemma EarlyPart(s: Sys, e: Event)
    requires Next(s, e).Some? && Early(e) && Removes(e) && e.id in s.routines && e.id in s.t.jobs
    ensures e.id in Next(s, e).value.routines && PartAfter(s, Next(s, e).value, e)
  {
    hide Next;
    hide PartAfter;
    if e.Open? { OpenPart(s, e); } else if e.Create? { CreatePart(s, e); } else { QuietPart(s, e); }
  }

  lemma CopyPart(s: Sys, e: Event)
    requires Next(s, e).Some? && Copy(e) && Removes(e) && e.id in s.routines && e.id in s.t.jobs
    ensures e.id in Next(s, e).value.routines && PartAfter(s, Next(s, e).value, e)
  {
    hide UpdateTables;
    hide PartPath;
    hide Lookup;
  }

  lemma LatePart(s: Sys, e: Event)
    requires Next(s, e).Some? && Late(e) && Removes(e) && e.id in s.routines && e.id in s.t.jobs
    ensures e.id in Next(s, e).value.routines && PartAfter(s, Next(s, e).value, e)
  {
    hide UpdateTables;
    hide PartPath;
  }

  lemma ClearsMore(s: Sys, n: Sys, past: seq<Event>, e: Event)
    requires e.id in s.t.jobs && forall x :: x in past && Clears(x) ==> x.id in s.t.jobs
    requires forall j :: j in s.t.jobs ==> j in n.t.jobs && n.t.jobs[j].target == s.t.jobs[j].target
    ensures forall x :: x in past + [e] && Clears(x) ==> x.id in n.t.jobs
    ensures forall p :: Untouched(s, past, p) && (Clears(e) ==> s.t.jobs[e.id].target != p) ==> Untouched(n, past + [e], p)
  {
    hide Clears;
    assert forall x :: x in past + [e] <==> x in past || x == e;
  }

  /** A step that keeps the goroutines of the other targets, and their partial files, keeps the rest. */
  lemma OwnedElse(s: Sys, n: Sys, past: seq<Event>, e: Event, initial: map<string, Bytes>)
    requires IndexOk(s) && Owned(s, past, initial) && e.id in s.routines && e.id in s.t.jobs
    requires forall j :: j in s.t.jobs ==> j in n.t.jobs && n.t.jobs[j].target == s.t.jobs[j].target
    requires forall j :: j in s.routines && j != e.id ==> j in n.routines && n.routines[j] == s.routines[j]
    requires forall p :: p != s.t.jobs[e.id].target ==> Lookup(n.files, PartPath(p)) == Lookup(s.files, PartPath(p))
    requires || Lookup(n.files, PartOf(s, e.id)).None?
             || (e.id in n.routines && Writing(n.routines[e.id]))
             || (!Writing(s.routines[e.id]) && Lookup(n.files, PartOf(s, e.id)) == Lookup(s.files, PartOf(s, e.id)) && !Clears(e))
    ensures Owned(n, past + [e], initial)
  {
    ClearsMore(s, n, past, e);
    hide Untouched;
    hide Clears;
    hide Lookup;
    hide IsGguf;
    hide PartPath;
    var target := s.t.jobs[e.id].target;
    forall p | IsGguf(p) && Lookup(n.files, PartPath(p)).Some? ensures OwnedAt(n, past + [e], initial, p) {
      if p != target {
        assert OwnedAt(s, past, initial, p);
        if id :| Writes(s, id, p) { assert Writes(n, id, p); }
      } else if e.id in n.routines && Writing(n.routines[e.id]) {
        assert Writes(n, e.id, p);
      } else {
        assert OwnedAt(s, past, initial, p);
        if id :| Writes(s, id, p) { OneWriter(s, e.id, id); }
      }
    }
  }

  lemma OneWriter(s: Sys, id: Id, j: Id)
    requires IndexOk(s) && id in s.routines && id in s.t.jobs && Writes(s, j, s.t.jobs[id].target)
    ensures j == id
  {
    hide IsGguf;
  }

  lemma WorkOwned(s: Sys, past: seq<Event>, e: Event, initial: map<string, Bytes>)
    requires IndexOk(s) && Owned(s, past, initial) && Next(s, e).Some? && (Early(e) || Copy(e) || Late(e)) && Removes(e)
    ensures Owned(Next(s, e).value, past + [e], initial)
  {
    StepEffect(s, e);
    if Early(e) { EarlyPart(s, e); } else if Copy(e) { CopyPart(s, e); } else { LatePart(s, e); }
    var n := Next(s, e).value;
    OwnLooks(s, n, e.id, ChangeOf(s.routines[e.id], e));
    hide Next;
    hide IndexOk;
    hide Owned;
    hide OwnEffect;
    hide PartPath;
    OwnedElse(s, n, past, e, initial);
  }

  lemma OwnLooks(s: Sys, n: Sys, id: Id, change: Option<Change>)
    requires id in s.t.jobs && OwnEffect(s, n, id, change)
    ensures forall j :: j in s.t.jobs ==> j in n.t.jobs && n.t.jobs[j].target == s.t.jobs[j].target
    ensures forall j :: j in s.routines && j != id ==> j in n.routines && n.routines[j] == s.routines[j]
    ensures forall p :: p != s.t.jobs[id].target ==> Lookup(n.files, PartPath(p)) == Lookup(s.files, PartPath(p))
  {
    hide Lookup;
    if change.Some? { UpdatedTables(s.t, id, change.value); }
    forall p | p != s.t.jobs[id].target ensures PartPath(p) != PartOf(s, id) { PartPaths(p, s.t.jobs[id].target); }
    hide PartPath;
    hide UpdateTables;
  }

  lemma RenamedLooks(files: map<string, Bytes>, target: string, body: Bytes)
    requires IsGguf(target)
    ensures var after := files[target := body] - {PartPath(target)};
            && Lookup(after, PartPath(target)) == None
            && forall p :: p != target ==> Lookup(after, PartPath(p)) == Lookup(files, PartPath(p))
  {
    var after := files[target := body] - {PartPath(target)};
    forall p | p != target ensures Lookup(after, PartPath(p)) == Lookup(files, PartPath(p)) {
      PartPaths(p, target);
    }
  }

  lemma RenameLooks(s: Sys, e: Event)
    requires Next(s, e).Some? && e.Rename? && e.outcome.Renamed? && e.id in s.t.jobs && IsGguf(s.t.jobs[e.id].target)
    ensures var n := Next(s, e).value;
            && e.id in s.routines && e.id in s.t.jobs && n.t == s.t
            && (forall j :: j in s.routines && j != e.id ==> j in n.routines && n.routines[j] == s.routines[j])
            && (forall p :: p != s.t.jobs[e.id].target ==> Lookup(n.files, PartPath(p)) == Lookup(s.files, PartPath(p)))
            && Lookup(n.files, PartOf(s, e.id)) == None
  {
    RenameState(s, e.id, e.outcome.synced);
    RenamedLooks(s.files, s.t.jobs[e.id].target, s.files[PartOf(s, e.id)]);
    hide Next;
    hide Lookup;
    hide PartPath;
    hide IsGguf;
  }

  lemma RenameOwned(s: Sys, past: seq<Event>, e: Event, initial: map<string, Bytes>)
    requires IndexOk(s) && Owned(s, past, initial) && Next(s, e).Some? && e.Rename? && e.outcome.Renamed?
    ensures Owned(Next(s, e).value, past + [e], initial)
  {
    RenameState(s, e.id, e.outcome.synced);
    GgufTarget(s, e.id);
    hide *;
    RenameLooks(s, e);
    OwnedElse(s, Next(s, e).value, past, e, initial);
  }

  lemma GgufTarget(s: Sys, id: Id)
    requires IndexOk(s) && id in s.t.jobs
    ensures IsGguf(s.t.jobs[id].target)
  {
    hide IsGguf;
  }

  lemma ClearLooks(s: Sys, e: Event)
    requires Next(s, e).Some? && e.Clear?
    ensures var n := Next(s, e).value;
            && e.id in s.routines && e.id in s.t.jobs && !Writing(s.routines[e.id]) && !Clears(e)
            && n.t.jobs == s.t.jobs && n.files == s.files
            && (forall j :: j in s.routines && j != e.id ==> j in n.routines && n.routines[j] == s.routines[j])
  {
    ClearState(s, e.id);
    ClearedJobs(s.t, e.id);
    hide Next;
    hide ClearTables;
  }

  lemma ClearOwned(s: Sys, past: seq<Event>, e: Event, initial: map<string, Bytes>)
    requires IndexOk(s) && Owned(s, past, initial) && Next(s, e).Some? && e.Clear?
    ensures Owned(Next(s, e).value, past + [e], initial)
  {
    hide *;
    ClearLooks(s, e);
    OwnedElse(s, Next(s, e).value, past, e, initial);
  }

  lemma CallOwned(s: Sys, past: seq<Event>, e: Event, initial: map<string, Bytes>)
    requires IndexOk(s) && Owned(s, past, initial) && Next(s, e).Some? && (e.Start? || e.StoreAlready? || e.Cancel?)
    ensures Owned(Next(s, e).value, past + [e], initial)
  {
    CallKeeps(s, e);
    var n := Next(s, e).value;
    hide Next;
    hide IndexOk;
    hide IsGguf;
    hide PartPath;
    hide Lookup;
    assert forall x :: x in past + [e] && Clears(x) ==> x in past;
    forall p | IsGguf(p) && Lookup(n.files, PartPath(p)).Some? ensures OwnedAt(n, past + [e], initial, p) {
      assert OwnedAt(s, past, initial, p);
      if id :| Writes(s, id, p) { assert Writes(n, id, p); }
    }
  }

  lemma CallKeeps(s: Sys, e: Event)
    requires IndexOk(s) && Next(s, e).Some? && (e.Start? || e.StoreAlready? || e.Cancel?)
    ensures var n := Next(s, e).value;
            && n.files == s.files
            && (forall j :: j in s.t.jobs ==> j in n.t.jobs && n.t.jobs[j].target == s.t.jobs[j].target)
            && (forall j :: j in s.routines ==> j in n.routines && n.routines[j] == s.routines[j])
  {
    hide NextOf;
    hide IsGguf;
  }

  lemma StepOwned(s: Sys, past: seq<Event>, e: Event, initial: map<string, Bytes>)
    requires IndexOk(s) && Owned(s, past, initial) && Next(s, e).Some? && Removes(e)
    ensures Owned(Next(s, e).value, past + [e], initial)
  {
    Kinds(e);
    hide *;
    if Early(e) || Copy(e) || Late(e) {
      WorkOwned(s, past, e, initial);
    } else if e.Rename? {
      RenameOwned(s, past, e, initial);
    } else if e.Clear? {
      ClearOwned(s, past, e, initial);
    } else {
      CallOwned(s, past, e, initial);
    }
  }

  lemma {:induction false} RunOwned(s: Sys, past: seq<Event>, events: seq<Event>, initial: map<string, Bytes>)
    requires Inv(s, initial) && Owned(s, past, initial) && Run(s, events).Some? && forall i :: 0 <= i < |events| ==> Removes(events[i])
    ensures Owned(Run(s, events).value, past + events, initial)
    decreases |events|
  {
    hide Next;
    hide Owned;
    hide Removes;
    hide JobsOk;
    hide InstallsOk;
    hide TargetsOk;
    hide IndexOk;
    if events == [] {
      assert past + events == past;
    } else {
      StepOwned(s, past, events[0], initial);
      StepKeeps(s, events[0], initial);
      RunOwned(Next(s, events[0]).value, past + [events[0]], events[1..], initial);
      assert past + [events[0]] + events[1..] == past + events;
    }
  }

  /** As long as no removal fails, no job leaves a partial file behind, whatever way it ends: one that is there without
      a goroutine writing it was there before the run, as it is now, and none of the jobs of its target got a bad
      status or made a partial file of its own. */
  lemma NoPartLeft(files: map<string, Bytes>, events: seq<Event>, target: string)
    requires Run(Init(files), events).Some? && IsGguf(target)
    requires forall i :: 0 <= i < |events| ==> Removes(events[i])
    ensures var s := Run(Init(files), events).value;
            PartPath(target) in s.files ==>
              || (exists id :: id in s.routines && id in s.t.jobs && s.t.jobs[id].target == target && Writing(s.routines[id]))
              || (&& PartPath(target) in files && s.files[PartPath(target)] == files[PartPath(target)]
                  && forall e :: e in events && Clears(e) ==> e.id in s.t.jobs && s.t.jobs[e.id].target != target)
  {
    hide Next;
    hide Removes;
    hide Clears;
    hide PartPath;
    hide IsGguf;
    InitInv(files);
    hide Inv;
    assert Owned(Init(files), [], files);
    RunOwned(Init(files), [], events, files);
    assert [] + events == events;
    var s := Run(Init(files), events).value;
    if PartPath(target) in s.files {
      assert Lookup(s.files, PartPath(target)).Some?;
      assert OwnedAt(s, events, files, target);
      if id :| Writes(s, id, target) {}
    }
  }
}
