/** Every interleaving of Start, Cancel and the job goroutines, one step per critical section or file operation. */
module DownloadRuns {
  import opened Wrappers
  import opened Downloads

  // ---------- paths ----------

  /** Targets come from a listing that keeps only names with this suffix, in either case. */
  predicate IsGguf(path: string) {
    var n := |path|;
    n >= 5 && path[n - 5] == '.' && path[n - 4] in {'g', 'G'} && path[n - 3] in {'g', 'G'}
    && path[n - 2] in {'u', 'U'} && path[n - 1] in {'f', 'F'}
  }

  /** The suffix in upper or lower case, or both. */
  lemma GgufExact(stem: string, ext: string)
    requires |ext| == 5
    ensures IsGguf(stem + ext) <==> forall i :: 0 <= i < 5 ==> ext[i] == ".gguf"[i] || ext[i] == ".GGUF"[i]
  {
    var path := stem + ext;
    assert forall i :: 0 <= i < 5 ==> path[|stem| + i] == ext[i];
    assert ".gguf" == ['.', 'g', 'g', 'u', 'f'] && ".GGUF" == ['.', 'G', 'G', 'U', 'F'];
    if forall i :: 0 <= i < 5 ==> ext[i] == ".gguf"[i] || ext[i] == ".GGUF"[i] {
      assert ext[0] == '.' && ext[1] in {'g', 'G'} && ext[2] in {'g', 'G'} && ext[3] in {'u', 'U'} && ext[4] in {'f', 'F'};
    }
  }

  function PartPath(target: string): string { target + ".part" }

  /** A partial file is never some job's target, and belongs to one target only. */
  lemma PartPaths(a: string, b: string)
    ensures !IsGguf(PartPath(a))
    ensures PartPath(a) == PartPath(b) ==> a == b
  {
    assert PartPath(a)[|PartPath(a)| - 1] == 't';
    assert PartPath(a)[..|PartPath(a)| - 5] == a && PartPath(b)[..|PartPath(b)| - 5] == b;
  }

  // ---------- states ----------

  /** Where the goroutine of a job stands. */
  datatype Pc =
    | Spawned
    | Preparing
    | Opening
    | Opened
    | Creating
    | Copying(got: Bytes)
    | Reporting(got: Bytes, unreported: nat, end: End)
    | AtEnd
    | Flushing
    | Renaming
    | Returned(outcome: Outcome)
    | Exiting

  /** A rename of a finished partial file over its target. */
  datatype Install = Install(path: string, id: Id, body: Bytes)

  /** `contexts` holds the cancelled contexts; `served` the body of the response each job opened;
      `installs` every rename so far, in order. */
  datatype Sys = Sys(
    t: Tables,
    contexts: set<Id>,
    routines: map<Id, Pc>,
    files: map<string, Bytes>,
    served: map<Id, Bytes>,
    installs: seq<Install>)

  datatype OpenResult = Refused(outcome: Outcome) | BadStatus(removed: bool) | Accepted(body: Bytes)
  datatype RenameResult = Rejected(removed: bool) | Renamed(synced: bool)

  datatype Event =
    | Start(id: Id, target: string, size: nat)
    | StoreAlready(id: Id, target: string, size: nat)
    | Cancel(id: Id)
    | Begin(id: Id)
    | Prepare(id: Id, ok: bool)
    | Open(id: Id, result: OpenResult)
    | SetTotal(id: Id, total: int)
    | Create(id: Id, ok: bool)
    | Read(id: Id, chunk: Bytes, end: End)
    | WriteFails(id: Id, left: Bytes, removed: bool)
    | Report(id: Id, removed: bool)
    | CheckContext(id: Id, removed: bool)
    | Flush(id: Id, ok: bool, removed: bool)
    | Rename(id: Id, outcome: RenameResult)
    | Settle(id: Id)
    | Clear(id: Id)

  function Init(files: map<string, Bytes>): Sys {
    Sys(Tables(map[], map[], {}), {}, map[], files, map[], [])
  }

  /** A step of one goroutine: a change to its job, its place and its partial file. */
  function Advance(s: Sys, id: Id, change: Option<Change>, pc: Pc, files: map<string, Bytes>): Sys {
    s.(t := match change case None => s.t case Some(c) => UpdateTables(s.t, id, c),
       routines := s.routines[id := pc],
       files := files)
  }

  function RemoveFile(files: map<string, Bytes>, path: string, removed: bool): map<string, Bytes> {
    if removed then files - {path} else files
  }

  /** An error that wraps `context.Canceled` comes only from a cancelled context. */
  predicate Possible(s: Sys, id: Id, outcome: Outcome) {
    outcome == Broken || (outcome == Aborted && id in s.contexts)
  }

  /** Where a goroutine stands once the bytes of a read are counted. */
  function AfterRead(got: Bytes, end: End): Pc {
    match end
    case More => Copying(got)
    case Eof => AtEnd
    case Error(outcome) => Returned(outcome)
  }

  /** The state after an event, or None where it cannot happen. */
  function Next(s: Sys, e: Event): Option<Sys> {
    match e
    case Start(id, target, size) =>
      if id in s.t.jobs || id == "" || !IsGguf(target) then None
      else
        var (t, job) := StartTables(s.t, id, target, size);
        Some(if job == id then s.(t := t, routines := s.routines[id := Spawned]) else s)
    case StoreAlready(id, target, size) =>
      if id in s.t.jobs || id == "" || !IsGguf(target) then None
      else Some(s.(t := AlreadyTables(s.t, id, target, size)))
    case Cancel(id) =>
      var (t, result) := CancelTables(s.t, id);
      Some(s.(t := t, contexts := s.contexts + if result == Done && id in s.t.cancel then {id} else {}))
    case _ =>
      if e.id !in s.routines || e.id !in s.t.jobs then None else NextOf(s, e.id, s.routines[e.id], e)
  }

  /** A step of the goroutine of a job. */
  function NextOf(s: Sys, id: Id, pc: Pc, e: Event): Option<Sys>
    requires id in s.routines && id in s.t.jobs && pc == s.routines[id]
  {
    match e
    case Begin(_) => BeginStep(s, id, pc)
    case Prepare(_, ok) => PrepareStep(s, id, pc, ok)
    case Open(_, result) => OpenStep(s, id, pc, result)
    case SetTotal(_, total) => SetTotalStep(s, id, pc, total)
    case Create(_, ok) => CreateStep(s, id, pc, ok)
    case Read(_, chunk, end) => ReadStep(s, id, pc, chunk, end)
    case WriteFails(_, left, removed) => WriteFailsStep(s, id, pc, left, removed)
    case Report(_, removed) => ReportStep(s, id, pc, removed)
    case CheckContext(_, removed) => CheckContextStep(s, id, pc, removed)
    case Flush(_, ok, removed) => FlushStep(s, id, pc, ok, removed)
    case Rename(_, outcome) => RenameStep(s, id, pc, outcome)
    case Settle(_) => SettleStep(s, id, pc)
    case Clear(_) => ClearStep(s, id, pc)
    case _ => None
  }

  function PartOf(s: Sys, id: Id): string
    requires id in s.t.jobs
  {
    PartPath(s.t.jobs[id].target)
  }

  function BeginStep(s: Sys, id: Id, pc: Pc): Option<Sys> {
    if pc != Spawned then None else Some(Advance(s, id, Some(Change.Begin), Preparing, s.files))
  }

  function PrepareStep(s: Sys, id: Id, pc: Pc, ok: bool): Option<Sys> {
    if pc != Preparing then None
    else Some(Advance(s, id, None, if ok then Opening else Returned(Broken), s.files))
  }

  function OpenStep(s: Sys, id: Id, pc: Pc, result: OpenResult): Option<Sys>
    requires id in s.t.jobs
  {
    if pc != Opening then None
    else match result
      case Refused(outcome) =>
        if Possible(s, id, outcome) then Some(Advance(s, id, None, Returned(outcome), s.files)) else None
      case BadStatus(removed) => Some(Advance(s, id, None, Returned(Broken), RemoveFile(s.files, PartOf(s, id), removed)))
      case Accepted(body) => Some(Advance(s, id, None, Opened, s.files).(served := s.served[id := body]))
  }

  function SetTotalStep(s: Sys, id: Id, pc: Pc, total: int): Option<Sys> {
    if pc != Opened then None else Some(Advance(s, id, Some(Change.SetTotal(total)), Creating, s.files))
  }

  function CreateStep(s: Sys, id: Id, pc: Pc, ok: bool): Option<Sys>
    requires id in s.t.jobs
  {
    if pc != Creating then None
    else if ok then Some(Advance(s, id, None, Copying([]), s.files[PartOf(s, id) := []]))
    else Some(Advance(s, id, None, Returned(Broken), s.files))
  }

  function ReadStep(s: Sys, id: Id, pc: Pc, chunk: Bytes, end: End): Option<Sys>
    requires id in s.t.jobs
  {
    if !pc.Copying? || id !in s.served || !(pc.got + chunk <= s.served[id]) then None
    else if end == Eof && pc.got + chunk != s.served[id] then None
    else if end.Error? && !Possible(s, id, end.outcome) then None
    else Some(Advance(s, id, None, Reporting(pc.got + chunk, |chunk|, end), s.files[PartOf(s, id) := pc.got + chunk]))
  }

  function WriteFailsStep(s: Sys, id: Id, pc: Pc, left: Bytes, removed: bool): Option<Sys>
    requires id in s.t.jobs
  {
    if !pc.Copying? then None
    else Some(Advance(s, id, None, Returned(Broken), RemoveFile(s.files[PartOf(s, id) := left], PartOf(s, id), removed)))
  }

  function ReportStep(s: Sys, id: Id, pc: Pc, removed: bool): Option<Sys>
    requires id in s.t.jobs
  {
    if !pc.Reporting? then None
    else Some(Advance(s, id, Some(Progress(pc.unreported)), AfterRead(pc.got, pc.end),
                      if pc.end.Error? then RemoveFile(s.files, PartOf(s, id), removed) else s.files))
  }

  function CheckContextStep(s: Sys, id: Id, pc: Pc, removed: bool): Option<Sys>
    requires id in s.t.jobs
  {
    if pc != AtEnd then None
    else if id in s.contexts then Some(Advance(s, id, None, Returned(Aborted), RemoveFile(s.files, PartOf(s, id), removed)))
    else Some(Advance(s, id, None, Flushing, s.files))
  }

  function FlushStep(s: Sys, id: Id, pc: Pc, ok: bool, removed: bool): Option<Sys>
    requires id in s.t.jobs
  {
    if pc != Flushing then None
    else if ok then Some(Advance(s, id, None, Renaming, s.files))
    else Some(Advance(s, id, None, Returned(Broken), RemoveFile(s.files, PartOf(s, id), removed)))
  }

  function RenameStep(s: Sys, id: Id, pc: Pc, outcome: RenameResult): Option<Sys>
    requires id in s.t.jobs
  {
    var target, part := s.t.jobs[id].target, PartOf(s, id);
    if pc != Renaming || part !in s.files then None
    else match outcome
      case Rejected(removed) => Some(Advance(s, id, None, Returned(Broken), RemoveFile(s.files, part, removed)))
      case Renamed(synced) =>
        Some(Advance(s, id, None, Returned(if synced then Success else Broken), s.files[target := s.files[part]] - {part})
             .(installs := s.installs + [Install(target, id, s.files[part])]))
  }

  function SettleStep(s: Sys, id: Id, pc: Pc): Option<Sys> {
    if !pc.Returned? then None
    else Some(Advance(s, id, Some(Change.Settle(pc.outcome)), Exiting, s.files))
  }

  function ClearStep(s: Sys, id: Id, pc: Pc): Option<Sys> {
    if pc != Exiting then None
    else Some(s.(t := ClearTables(s.t, id), routines := s.routines - {id}))
  }

  /** The states a run of events reaches; None if one of them cannot happen. */
  function Run(s: Sys, events: seq<Event>): Option<Sys>
    decreases |events|
  {
    if events == [] then Some(s)
    else match Next(s, events[0])
      case None => None
      case Some(n) => Run(n, events[1..])
  }

  // ---------- the invariant ----------

  /** `active` is the index, by target, of the goroutines that have not cleared; `cancel` is their set. */
  ghost predicate IndexOk(s: Sys) {
    && s.t.cancel == s.routines.Keys
    && s.routines.Keys <= s.t.jobs.Keys
    && (forall id :: id in s.t.jobs ==> id != "" && IsGguf(s.t.jobs[id].target))
    && (forall p :: p in s.t.active ==> s.t.active[p] in s.routines && s.t.jobs[s.t.active[p]].target == p)
    && (forall id :: id in s.routines ==> s.t.jobs[id].target in s.t.active && s.t.active[s.t.jobs[id].target] == id)
  }

  /** The job's whole body was read, counted and renamed into place. */
  ghost predicate Delivered(s: Sys, id: Id) {
    && id in s.t.jobs && id in s.served
    && s.t.jobs[id].received == |s.served[id]|
    && Installed(s.installs, id)
  }

  ghost predicate Installed(installs: seq<Install>, id: Id) {
    exists i :: 0 <= i < |installs| && installs[i].id == id
  }

  ghost predicate Live(job: Job) { job.state == Running || job.state == Cancelled }

  /** The partial file holds what was read so far. */
  ghost predicate PartHolds(s: Sys, id: Id, got: Bytes)
    requires id in s.t.jobs
  {
    var part := PartPath(s.t.jobs[id].target);
    part in s.files && s.files[part] == got && id in s.served && got <= s.served[id]
  }

  ghost predicate RoutineOk(s: Sys, id: Id, pc: Pc)
    requires id in s.t.jobs
  {
    var job := s.t.jobs[id];
    match pc
    case Spawned => (job.state == Queued || job.state == Cancelled) && job.received == 0 && !Installed(s.installs, id)
    case Preparing => Live(job) && job.received == 0 && !Installed(s.installs, id)
    case Opening => Live(job) && job.received == 0 && !Installed(s.installs, id)
    case Opened => Live(job) && job.received == 0 && !Installed(s.installs, id) && id in s.served
    case Creating => Live(job) && job.received == 0 && !Installed(s.installs, id) && id in s.served
    case Copying(got) => Live(job) && !Installed(s.installs, id) && PartHolds(s, id, got) && job.received == |got|
    case Reporting(got, n, end) =>
      Live(job) && !Installed(s.installs, id) && PartHolds(s, id, got) && job.received + n == |got|
      && (end == Eof ==> got == s.served[id]) && (end.Error? ==> end.outcome != Success)
    case AtEnd => Live(job) && !Installed(s.installs, id) && id in s.served && PartHolds(s, id, s.served[id]) && job.received == |s.served[id]|
    case Flushing => Live(job) && !Installed(s.installs, id) && id in s.served && PartHolds(s, id, s.served[id]) && job.received == |s.served[id]|
    case Renaming => Live(job) && !Installed(s.installs, id) && id in s.served && PartHolds(s, id, s.served[id]) && job.received == |s.served[id]|
    case Returned(outcome) => Live(job) && (outcome == Success ==> Delivered(s, id))
    case Exiting => SettledOk(s, id)
  }

  ghost predicate SettledOk(s: Sys, id: Id)
    requires id in s.t.jobs
  {
    Terminal(s.t.jobs[id].state) && (s.t.jobs[id].state == Completed ==> Delivered(s, id))
  }

  ghost predicate JobsOk(s: Sys) {
    && (forall id :: id in s.routines && id in s.t.jobs ==> RoutineOk(s, id, s.routines[id]))
    && (forall id :: id in s.t.jobs && id !in s.routines ==> SettledOk(s, id))
    && (forall id :: id in s.contexts ==> id in s.t.jobs && s.t.jobs[id].state == Cancelled)
  }

  /** Every rename put one complete body on the target of its job, and no job did so twice. */
  ghost predicate InstallsOk(s: Sys) {
    && (forall i :: 0 <= i < |s.installs| ==>
          var n := s.installs[i];
          n.id in s.t.jobs && n.path == s.t.jobs[n.id].target && n.id in s.served && n.body == s.served[n.id])
    && (forall i, j :: 0 <= i < j < |s.installs| ==> s.installs[i].id != s.installs[j].id)
  }

  function Lookup(files: map<string, Bytes>, path: string): Option<Bytes> {
    if path in files then Some(files[path]) else None
  }

  /** What a path holds after some renames: the last one onto it, or else what it held before. */
  function Held(initial: map<string, Bytes>, installs: seq<Install>, path: string): Option<Bytes> {
    if installs == [] then Lookup(initial, path)
    else
      var last := installs[|installs| - 1];
      if last.path == path then Some(last.body) else Held(initial, installs[..|installs| - 1], path)
  }

  ghost predicate TargetsOk(s: Sys, initial: map<string, Bytes>) {
    forall p :: IsGguf(p) ==> Lookup(s.files, p) == Held(initial, s.installs, p)
  }

  ghost predicate Inv(s: Sys, initial: map<string, Bytes>) {
    IndexOk(s) && JobsOk(s) && InstallsOk(s) && TargetsOk(s, initial)
  }

  // ---------- every step keeps it ----------

  /** Two goroutines never share a partial file, and no partial file is a target. */
  lemma ExclusiveParts(s: Sys, a: Id, b: Id)
    requires IndexOk(s) && a in s.routines && b in s.routines && a != b
    ensures s.t.jobs[a].target != s.t.jobs[b].target
    ensures PartPath(s.t.jobs[a].target) != PartPath(s.t.jobs[b].target)
  {
    PartPaths(s.t.jobs[a].target, s.t.jobs[b].target);
  }

  /** A job, its goroutine and its files look the same before and after a step. */
  ghost predicate SameFor(s: Sys, n: Sys, j: Id)
    requires j in s.t.jobs
  {
    && j in n.t.jobs && n.t.jobs[j] == s.t.jobs[j]
    && (j in n.routines <==> j in s.routines)
    && (j in s.routines ==> n.routines[j] == s.routines[j])
    && (j in s.routines ==> Lookup(n.files, PartPath(s.t.jobs[j].target)) == Lookup(s.files, PartPath(s.t.jobs[j].target)))
    && (j in s.served ==> j in n.served && n.served[j] == s.served[j])
    && (Installed(n.installs, j) <==> Installed(s.installs, j))
    && (j in n.contexts <==> j in s.contexts)
  }

  ghost predicate JobOk(s: Sys, j: Id)
    requires j in s.t.jobs
  {
    && (if j in s.routines then RoutineOk(s, j, s.routines[j]) else SettledOk(s, j))
    && (j in s.contexts ==> s.t.jobs[j].state == Cancelled)
  }

  lemma SameJob(s: Sys, n: Sys, j: Id)
    requires j in s.t.jobs && JobOk(s, j) && SameFor(s, n, j)
    ensures JobOk(n, j)
  {
    hide Installed;
    if j in s.routines {
      assert forall got :: PartHolds(s, j, got) ==> PartHolds(n, j, got);
    }
  }

  /** Enough for the jobs: all but one look the same, and that one is right. */
  lemma Others(s: Sys, n: Sys, id: Id)
    requires JobsOk(s)
    requires n.t.jobs.Keys == s.t.jobs.Keys + {id} && n.contexts <= s.contexts + {id}
    requires forall j :: j in s.t.jobs && j != id ==> SameFor(s, n, j)
    requires JobOk(n, id)
    ensures JobsOk(n)
  {
    hide RoutineOk;
    hide SettledOk;
    hide SameFor;
    forall j | j in n.t.jobs ensures JobOk(n, j) {
      if j != id { SameJob(s, n, j); }
    }
  }

  /** A step of one goroutine: what it may touch. */
  ghost predicate Frame(s: Sys, n: Sys, id: Id)
    requires id in s.t.jobs
  {
    && n.t.active == s.t.active && n.t.cancel == s.t.cancel && n.installs == s.installs
    && n.contexts - {id} == s.contexts - {id}
    && n.t.jobs.Keys == s.t.jobs.Keys && (forall j :: j in s.t.jobs && j != id ==> n.t.jobs[j] == s.t.jobs[j])
    && n.t.jobs[id].target == s.t.jobs[id].target
    && n.routines.Keys == s.routines.Keys && (forall j :: j in s.routines && j != id ==> n.routines[j] == s.routines[j])
    && (forall p :: p != PartPath(s.t.jobs[id].target) ==> Lookup(n.files, p) == Lookup(s.files, p))
    && (forall j :: j in s.served && (j != id || Installed(s.installs, id)) ==> j in n.served && n.served[j] == s.served[j])
  }

  lemma FrameInstalls(s: Sys, n: Sys, id: Id)
    requires id in s.t.jobs && Frame(s, n, id) && InstallsOk(s)
    ensures InstallsOk(n)
  {
    forall i | 0 <= i < |n.installs| ensures n.installs[i].id in n.served && n.installs[i].body == n.served[n.installs[i].id] {
      assert Installed(s.installs, s.installs[i].id);
    }
  }

  lemma FrameTargets(s: Sys, n: Sys, id: Id, initial: map<string, Bytes>)
    requires id in s.t.jobs && Frame(s, n, id) && TargetsOk(s, initial)
    ensures TargetsOk(n, initial)
  {
    forall p | IsGguf(p) ensures Lookup(n.files, p) == Held(initial, n.installs, p) {
      PartPaths(s.t.jobs[id].target, p);
    }
  }

  lemma FrameContexts(s: Sys, n: Sys, id: Id)
    requires id in s.t.jobs && Frame(s, n, id)
    ensures n.t.jobs.Keys == s.t.jobs.Keys + {id} && n.contexts <= s.contexts + {id}
  {
    hide Lookup;
    hide Installed;
    hide PartPath;
    assert n.contexts <= (n.contexts - {id}) + {id};
  }

  lemma FrameTables(s: Sys, n: Sys, id: Id)
    requires id in s.t.jobs && Frame(s, n, id)
    ensures n.t.active == s.t.active && n.t.cancel == s.t.cancel
    ensures n.t.jobs.Keys == s.t.jobs.Keys && n.routines.Keys == s.routines.Keys
    ensures forall j :: j in s.t.jobs ==> n.t.jobs[j].target == s.t.jobs[j].target
  {
    hide Lookup;
    hide Installed;
    hide PartPath;
  }

  lemma SameIndex(s: Sys, n: Sys)
    requires IndexOk(s)
    requires n.t.active == s.t.active && n.t.cancel == s.t.cancel
    requires n.t.jobs.Keys == s.t.jobs.Keys && n.routines.Keys == s.routines.Keys
    requires forall j :: j in s.t.jobs ==> n.t.jobs[j].target == s.t.jobs[j].target
    ensures IndexOk(n)
  {
    hide IsGguf;
  }

  lemma FrameIndex(s: Sys, n: Sys, id: Id)
    requires IndexOk(s) && id in s.t.jobs && Frame(s, n, id)
    ensures IndexOk(n)
    ensures n.t.jobs.Keys == s.t.jobs.Keys + {id} && n.contexts <= s.contexts + {id}
  {
    hide *;
    FrameContexts(s, n, id);
    FrameTables(s, n, id);
    SameIndex(s, n);
  }

  lemma FrameOther(s: Sys, n: Sys, id: Id, j: Id)
    requires IndexOk(s) && id in s.routines && id in s.t.jobs && Frame(s, n, id) && j in s.t.jobs && j != id
    ensures SameFor(s, n, j)
  {
    hide Installed;
    hide Lookup;
    hide IndexOk;
    hide PartPath;
    if j in s.routines { ExclusiveParts(s, id, j); }
    assert j in n.contexts <==> j in n.contexts - {id};
    assert j in s.contexts <==> j in s.contexts - {id};
  }

  lemma FrameOthers(s: Sys, n: Sys, id: Id)
    requires IndexOk(s) && id in s.routines && Frame(s, n, id)
    ensures forall j :: j in s.t.jobs && j != id ==> SameFor(s, n, j)
  {
    forall j | j in s.t.jobs && j != id ensures SameFor(s, n, j) {
      FrameOther(s, n, id, j);
    }
    hide Frame;
    hide SameFor;
  }

  /** A step that touches one goroutine, its job and its partial file keeps the invariant
      as soon as it does so for that goroutine. */
  lemma OwnStep(s: Sys, n: Sys, id: Id, initial: map<string, Bytes>)
    requires Inv(s, initial) && id in s.routines && Frame(s, n, id)
    requires JobOk(n, id)
    ensures Inv(n, initial)
  {
    hide JobsOk;
    hide JobOk;
    hide SameFor;
    hide InstallsOk;
    hide TargetsOk;
    FrameInstalls(s, n, id);
    FrameTargets(s, n, id, initial);
    FrameOthers(s, n, id);
    FrameIndex(s, n, id);
    hide IndexOk;
    hide Frame;
    Others(s, n, id);
  }

  lemma StartOthers(s: Sys, n: Sys, id: Id)
    requires id !in s.t.jobs && n.contexts == s.contexts && n.installs == s.installs && n.files == s.files && n.served == s.served
    requires forall j :: j in s.t.jobs ==> j in n.t.jobs && n.t.jobs[j] == s.t.jobs[j]
    requires forall j :: j in s.t.jobs ==> (j in n.routines <==> j in s.routines)
    requires forall j :: j in s.t.jobs && j in s.routines ==> n.routines[j] == s.routines[j]
    requires n.t.jobs.Keys == s.t.jobs.Keys + {id}
    requires JobsOk(s) && JobOk(n, id)
    ensures JobsOk(n)
  {
    hide JobsOk;
    hide RoutineOk;
    hide SettledOk;
    Others(s, n, id);
  }

  lemma NeverInstalled(s: Sys, id: Id)
    requires InstallsOk(s) && id !in s.t.jobs
    ensures !Installed(s.installs, id)
  {}

  lemma StartKeeps(s: Sys, id: Id, target: string, size: nat, initial: map<string, Bytes>)
    requires Inv(s, initial) && Next(s, Start(id, target, size)).Some?
    ensures Inv(Next(s, Start(id, target, size)).value, initial)
  {
    hide JobsOk;
    hide Installed;
    hide RoutineOk;
    hide SettledOk;
    hide TargetsOk;
    hide IsGguf;
    var n := Next(s, Start(id, target, size)).value;
    if n != s {
      NeverInstalled(s, id);
      ContextsAreJobs(s, id);
      StartedOk(n, id);
      StartOthers(s, n, id);
      StartRest(s, n, id, initial);
      StartIndex(s, n, id, target);
    }
  }

  lemma StartRest(s: Sys, n: Sys, id: Id, initial: map<string, Bytes>)
    requires InstallsOk(s) && TargetsOk(s, initial) && id !in s.t.jobs
    requires n.installs == s.installs && n.files == s.files && n.served == s.served
    requires forall j :: j in s.t.jobs ==> j in n.t.jobs && n.t.jobs[j] == s.t.jobs[j]
    ensures InstallsOk(n) && TargetsOk(n, initial)
  {}

  lemma StartIndex(s: Sys, n: Sys, id: Id, target: string)
    requires IndexOk(s) && id !in s.t.jobs && id != "" && target !in s.t.active && IsGguf(target)
    requires n.t.cancel == s.t.cancel + {id} && n.routines == s.routines[id := Spawned]
    requires n.t.active == s.t.active[target := id]
    requires n.t.jobs.Keys == s.t.jobs.Keys + {id} && n.t.jobs[id].target == target
    requires forall j :: j in s.t.jobs ==> n.t.jobs[j] == s.t.jobs[j]
    ensures IndexOk(n)
  {
    hide IsGguf;
  }

  lemma ContextsAreJobs(s: Sys, id: Id)
    requires JobsOk(s) && id !in s.t.jobs
    ensures id !in s.contexts
  {}

  lemma StartedOk(n: Sys, id: Id)
    requires id in n.t.jobs && id !in n.contexts
    requires if id in n.routines then n.routines[id] == Spawned && n.t.jobs[id].state == Queued && n.t.jobs[id].received == 0 && !Installed(n.installs, id)
             else n.t.jobs[id].state == AlreadyDownloaded
    ensures JobOk(n, id)
  {}

  lemma AlreadyKeeps(s: Sys, id: Id, target: string, size: nat, initial: map<string, Bytes>)
    requires Inv(s, initial) && Next(s, StoreAlready(id, target, size)).Some?
    ensures Inv(Next(s, StoreAlready(id, target, size)).value, initial)
  {
    hide JobsOk;
    hide Installed;
    hide RoutineOk;
    hide SettledOk;
    hide TargetsOk;
    hide InstallsOk;
    hide IsGguf;
    var n := Next(s, StoreAlready(id, target, size)).value;
    ContextsAreJobs(s, id);
    StartedOk(n, id);
    StartOthers(s, n, id);
    StartRest(s, n, id, initial);
  }

  lemma CancelledOk(s: Sys, n: Sys, id: Id)
    requires id in s.routines && id in s.t.jobs && RoutineOk(s, id, s.routines[id])
    requires s.t.jobs[id].state == Queued || s.t.jobs[id].state == Running
    requires id in n.t.jobs && n.t.jobs[id] == s.t.jobs[id].(state := Cancelled)
    requires n.routines == s.routines && n.files == s.files && n.served == s.served && n.installs == s.installs
    ensures JobOk(n, id)
  {
    hide Installed;
    assert forall got :: PartHolds(s, id, got) ==> PartHolds(n, id, got);
  }

  lemma UnsettledRuns(s: Sys, id: Id)
    requires JobsOk(s) && id in s.t.jobs && !Terminal(s.t.jobs[id].state)
    ensures id in s.routines
  {
    hide RoutineOk;
    hide Installed;
  }

  /** What a Cancel that goes through changes. */
  lemma CancelState(s: Sys, id: Id)
    requires CancelTables(s.t, id).1 == Done
    ensures var n := Next(s, Event.Cancel(id)).value;
            && id in s.t.jobs && (s.t.jobs[id].state == Queued || s.t.jobs[id].state == Running)
            && n == s.(t := s.t.(jobs := s.t.jobs[id := s.t.jobs[id].(state := Cancelled)]), contexts := n.contexts)
            && n.contexts == s.contexts + if id in s.t.cancel then {id} else {}
  {}

  lemma CancelNone(s: Sys, id: Id)
    requires CancelTables(s.t, id).1 != Done
    ensures Next(s, Event.Cancel(id)) == Some(s)
  {
    assert s.contexts + {} == s.contexts;
  }

  lemma CancelFrame(s: Sys, n: Sys, id: Id)
    requires id in s.t.jobs
    requires n == s.(t := s.t.(jobs := s.t.jobs[id := s.t.jobs[id].(state := Cancelled)]), contexts := n.contexts)
    requires n.contexts - {id} == s.contexts - {id}
    ensures Frame(s, n, id)
  {
    hide Installed;
    hide Lookup;
    hide PartPath;
  }

  lemma CancelKeeps(s: Sys, id: Id, initial: map<string, Bytes>)
    requires Inv(s, initial)
    ensures Inv(Next(s, Event.Cancel(id)).value, initial)
  {
    if CancelTables(s.t, id).1 == Done {
      CancelState(s, id);
      UnsettledRuns(s, id);
      var n := Next(s, Event.Cancel(id)).value;
      assert JobOk(s, id);
      hide Next;
      hide CancelTables;
      hide Frame;
      hide RoutineOk;
      hide Inv;
      assert n.contexts - {id} == s.contexts - {id};
      CancelFrame(s, n, id);
      CancelledOk(s, n, id);
      OwnStep(s, n, id, initial);
    } else {
      CancelNone(s, id);
    }
  }

  ghost predicate Early(e: Event) { e.Begin? || e.Prepare? || e.Open? || e.SetTotal? || e.Create? }
  ghost predicate Copy(e: Event) { e.Read? || e.WriteFails? || e.Report? }
  ghost predicate Late(e: Event) { e.CheckContext? || e.Flush? || e.Settle? || (e.Rename? && e.outcome.Rejected?) }

  /** The groups of events, and the four kinds outside them. */
  lemma Kinds(e: Event)
    ensures Early(e) || Copy(e) || Late(e) || e.Clear? || e.Start? || e.StoreAlready? || e.Cancel? || (e.Rename? && e.outcome.Renamed?)
  {}

  /** What a goroutine's step changes in its job. */
  function ChangeOf(pc: Pc, e: Event): Option<Change> {
    match e
    case Begin(_) => Some(Change.Begin)
    case SetTotal(_, total) => Some(Change.SetTotal(total))
    case Report(_, _) => if pc.Reporting? then Some(Progress(pc.unreported)) else None
    case Settle(_) => if pc.Returned? then Some(Change.Settle(pc.outcome)) else None
    case _ => None
  }

  /** A step that changes nothing but one job, its goroutine, its partial file and the body it is served. */
  ghost predicate OwnEffect(s: Sys, n: Sys, id: Id, change: Option<Change>)
    requires id in s.t.jobs
  {
    && n.t == (match change case None => s.t case Some(c) => UpdateTables(s.t, id, c))
    && n.contexts == s.contexts && n.installs == s.installs
    && id in n.routines && n.routines == s.routines[id := n.routines[id]]
    && (forall p :: p != PartOf(s, id) ==> Lookup(n.files, p) == Lookup(s.files, p))
    && n.served - {id} == s.served - {id}
  }

  lemma BeginEffect(s: Sys, id: Id, pc: Pc)
    requires id in s.t.jobs && BeginStep(s, id, pc).Some?
    ensures OwnEffect(s, BeginStep(s, id, pc).value, id, Some(Change.Begin))
  {
    hide UpdateTables;
  }

  lemma PrepareEffect(s: Sys, id: Id, pc: Pc, ok: bool)
    requires id in s.t.jobs && PrepareStep(s, id, pc, ok).Some?
    ensures OwnEffect(s, PrepareStep(s, id, pc, ok).value, id, None)
  {}

  lemma OpenEffect(s: Sys, id: Id, pc: Pc, result: OpenResult)
    requires id in s.t.jobs && OpenStep(s, id, pc, result).Some?
    ensures OwnEffect(s, OpenStep(s, id, pc, result).value, id, None)
  {
    hide Possible;
    hide PartPath;
  }

  lemma SetTotalEffect(s: Sys, id: Id, pc: Pc, total: int)
    requires id in s.t.jobs && SetTotalStep(s, id, pc, total).Some?
    ensures OwnEffect(s, SetTotalStep(s, id, pc, total).value, id, Some(Change.SetTotal(total)))
  {
    hide UpdateTables;
  }

  lemma CreateEffect(s: Sys, id: Id, pc: Pc, ok: bool)
    requires id in s.t.jobs && CreateStep(s, id, pc, ok).Some?
    ensures OwnEffect(s, CreateStep(s, id, pc, ok).value, id, None)
  {
    hide PartPath;
  }

  lemma ReadEffect(s: Sys, id: Id, pc: Pc, chunk: Bytes, end: End)
    requires id in s.t.jobs && ReadStep(s, id, pc, chunk, end).Some?
    ensures OwnEffect(s, ReadStep(s, id, pc, chunk, end).value, id, None)
  {
    hide Possible;
    hide PartPath;
  }

  lemma WriteFailsEffect(s: Sys, id: Id, pc: Pc, left: Bytes, removed: bool)
    requires id in s.t.jobs && WriteFailsStep(s, id, pc, left, removed).Some?
    ensures OwnEffect(s, WriteFailsStep(s, id, pc, left, removed).value, id, None)
  {
    hide PartPath;
  }

  lemma ReportEffect(s: Sys, id: Id, pc: Pc, removed: bool)
    requires id in s.t.jobs && ReportStep(s, id, pc, removed).Some?
    ensures pc.Reporting?
    ensures OwnEffect(s, ReportStep(s, id, pc, removed).value, id, Some(Progress(pc.unreported)))
  {
    hide PartPath;
    hide UpdateTables;
  }

  lemma CheckContextEffect(s: Sys, id: Id, pc: Pc, removed: bool)
    requires id in s.t.jobs && CheckContextStep(s, id, pc, removed).Some?
    ensures OwnEffect(s, CheckContextStep(s, id, pc, removed).value, id, None)
  {
    hide PartPath;
  }

  lemma FlushEffect(s: Sys, id: Id, pc: Pc, ok: bool, removed: bool)
    requires id in s.t.jobs && FlushStep(s, id, pc, ok, removed).Some?
    ensures OwnEffect(s, FlushStep(s, id, pc, ok, removed).value, id, None)
  {
    hide PartPath;
  }

  lemma RejectedEffect(s: Sys, id: Id, pc: Pc, removed: bool)
    requires id in s.t.jobs && RenameStep(s, id, pc, Rejected(removed)).Some?
    ensures OwnEffect(s, RenameStep(s, id, pc, Rejected(removed)).value, id, None)
  {
    hide PartPath;
  }

  lemma SettleEffect(s: Sys, id: Id, pc: Pc)
    requires id in s.t.jobs && SettleStep(s, id, pc).Some?
    ensures pc.Returned?
    ensures OwnEffect(s, SettleStep(s, id, pc).value, id, Some(Change.Settle(pc.outcome)))
  {
    hide UpdateTables;
  }

  lemma EarlyEffect(s: Sys, e: Event)
    requires Next(s, e).Some? && Early(e) && e.id in s.routines && e.id in s.t.jobs
    ensures OwnEffect(s, Next(s, e).value, e.id, ChangeOf(s.routines[e.id], e))
  {
    hide OwnEffect;
    hide BeginStep;
    hide PrepareStep;
    hide OpenStep;
    hide SetTotalStep;
    hide CreateStep;
    hide ReadStep;
    hide WriteFailsStep;
    hide ReportStep;
    hide CheckContextStep;
    hide FlushStep;
    hide RenameStep;
    hide SettleStep;
    hide IsGguf;
    var id, pc := e.id, s.routines[e.id];
    OfRoutine(s, e);
    hide Next;
    match e
    case Begin(_) => BeginEffect(s, id, pc);
    case Prepare(_, ok) => PrepareEffect(s, id, pc, ok);
    case Open(_, result) => OpenEffect(s, id, pc, result);
    case SetTotal(_, total) => SetTotalEffect(s, id, pc, total);
    case Create(_, ok) => CreateEffect(s, id, pc, ok);
  }

  lemma CopyEffect(s: Sys, e: Event)
    requires Next(s, e).Some? && Copy(e) && e.id in s.routines && e.id in s.t.jobs
    ensures OwnEffect(s, Next(s, e).value, e.id, ChangeOf(s.routines[e.id], e))
  {
    hide OwnEffect;
    hide BeginStep;
    hide PrepareStep;
    hide OpenStep;
    hide SetTotalStep;
    hide CreateStep;
    hide ReadStep;
    hide WriteFailsStep;
    hide ReportStep;
    hide CheckContextStep;
    hide FlushStep;
    hide RenameStep;
    hide SettleStep;
    hide IsGguf;
    var id, pc := e.id, s.routines[e.id];
    OfRoutine(s, e);
    hide Next;
    match e
    case Read(_, chunk, end) => ReadEffect(s, id, pc, chunk, end);
    case WriteFails(_, left, removed) => WriteFailsEffect(s, id, pc, left, removed);
    case Report(_, removed) => ReportEffect(s, id, pc, removed);
  }

  lemma LateEffect(s: Sys, e: Event)
    requires Next(s, e).Some? && Late(e) && e.id in s.routines && e.id in s.t.jobs
    ensures OwnEffect(s, Next(s, e).value, e.id, ChangeOf(s.routines[e.id], e))
  {
    hide OwnEffect;
    hide BeginStep;
    hide PrepareStep;
    hide OpenStep;
    hide SetTotalStep;
    hide CreateStep;
    hide ReadStep;
    hide WriteFailsStep;
    hide ReportStep;
    hide CheckContextStep;
    hide FlushStep;
    hide RenameStep;
    hide SettleStep;
    hide IsGguf;
    var id, pc := e.id, s.routines[e.id];
    OfRoutine(s, e);
    hide Next;
    match e
    case CheckContext(_, removed) => CheckContextEffect(s, id, pc, removed);
    case Flush(_, ok, removed) => FlushEffect(s, id, pc, ok, removed);
    case Rename(_, outcome) => RejectedEffect(s, id, pc, outcome.removed);
    case Settle(_) => SettleEffect(s, id, pc);
  }

  /** Every step of a goroutine before its end, but for the rename itself, touches only what is its own. */
  lemma StepEffect(s: Sys, e: Event)
    requires Next(s, e).Some? && (Early(e) || Copy(e) || Late(e))
    ensures e.id in s.routines && e.id in s.t.jobs
    ensures OwnEffect(s, Next(s, e).value, e.id, ChangeOf(s.routines[e.id], e))
  {
    hide OwnEffect;
    hide ChangeOf;
    OfRoutine(s, e);
    hide Next;
    hide NextOf;
    if Early(e) {
      EarlyEffect(s, e);
    } else if Copy(e) {
      CopyEffect(s, e);
    } else {
      LateEffect(s, e);
    }
  }

  /** A body that was served stays, unless the step opens a response. */
  lemma ServedStays(s: Sys, e: Event)
    requires Next(s, e).Some? && (Early(e) || Copy(e) || Late(e)) && !e.Open?
    ensures Next(s, e).value.served == s.served
  {
    hide UpdateTables;
    hide Possible;
    hide RemoveFile;
    hide PartPath;
  }

  lemma UpdatedTables(t: Tables, id: Id, change: Change)
    ensures var n := UpdateTables(t, id, change);
            && n.active == t.active && n.cancel == t.cancel && n.jobs.Keys == t.jobs.Keys
            && (forall j :: j in t.jobs && j != id ==> n.jobs[j] == t.jobs[j])
            && (id in t.jobs ==> n.jobs[id] == Changed(t.jobs[id], change) && n.jobs[id].target == t.jobs[id].target)
  {}

  lemma EffectFrame(s: Sys, n: Sys, id: Id, change: Option<Change>)
    requires id in s.t.jobs && id in s.routines && OwnEffect(s, n, id, change)
    requires Installed(s.installs, id) ==> n.served == s.served
    ensures Frame(s, n, id)
  {
    hide UpdateTables;
    hide Installed;
    hide Lookup;
    hide Changed;
    if change.Some? { UpdatedTables(s.t, id, change.value); }
    forall j | j in s.served && j != id ensures j in n.served && n.served[j] == s.served[j] {
      assert j in s.served - {id} && j in n.served - {id};
      assert (s.served - {id})[j] == (n.served - {id})[j];
    }
  }

  lemma StepFrame(s: Sys, e: Event)
    requires Next(s, e).Some? && (Early(e) || Copy(e) || Late(e))
    requires e.Open? ==> !Installed(s.installs, e.id)
    ensures e.id in s.t.jobs && Frame(s, Next(s, e).value, e.id)
  {
    StepEffect(s, e);
    if !e.Open? { ServedStays(s, e); }
    hide Next;
    hide Frame;
    EffectFrame(s, Next(s, e).value, e.id, ChangeOf(s.routines[e.id], e));
  }

  lemma BeginRoutine(s: Sys, id: Id)
    requires id in s.t.jobs && id in s.routines && JobOk(s, id) && BeginStep(s, id, s.routines[id]).Some?
    ensures var n := BeginStep(s, id, s.routines[id]).value; id in n.t.jobs && JobOk(n, id)
  {
    hide Installed;
    hide Terminal;
  }

  lemma PrepareRoutine(s: Sys, id: Id, ok: bool)
    requires id in s.t.jobs && id in s.routines && JobOk(s, id) && PrepareStep(s, id, s.routines[id], ok).Some?
    ensures var n := PrepareStep(s, id, s.routines[id], ok).value; id in n.t.jobs && JobOk(n, id)
  {
    hide Installed;
    hide Terminal;
    hide PartHolds;
  }

  lemma OpenRoutine(s: Sys, id: Id, result: OpenResult)
    requires id in s.t.jobs && id in s.routines && JobOk(s, id) && OpenStep(s, id, s.routines[id], result).Some?
    ensures var n := OpenStep(s, id, s.routines[id], result).value; id in n.t.jobs && JobOk(n, id)
  {
    hide Installed;
    hide Terminal;
    hide PartHolds;
  }

  lemma SetTotalRoutine(s: Sys, id: Id, total: int)
    requires id in s.t.jobs && id in s.routines && JobOk(s, id) && SetTotalStep(s, id, s.routines[id], total).Some?
    ensures var n := SetTotalStep(s, id, s.routines[id], total).value; id in n.t.jobs && JobOk(n, id)
  {
    hide Installed;
    hide Terminal;
    hide PartHolds;
  }

  lemma CreateRoutine(s: Sys, id: Id, ok: bool)
    requires id in s.t.jobs && id in s.routines && JobOk(s, id) && CreateStep(s, id, s.routines[id], ok).Some?
    ensures var n := CreateStep(s, id, s.routines[id], ok).value; id in n.t.jobs && JobOk(n, id)
  {
    hide Installed;
    hide Terminal;
  }

  lemma ReadRoutine(s: Sys, id: Id, chunk: Bytes, end: End)
    requires id in s.t.jobs && id in s.routines && JobOk(s, id) && ReadStep(s, id, s.routines[id], chunk, end).Some?
    ensures var n := ReadStep(s, id, s.routines[id], chunk, end).value; id in n.t.jobs && JobOk(n, id)
  {
    hide Installed;
    hide Terminal;
  }

  lemma WriteFailsRoutine(s: Sys, id: Id, left: Bytes, removed: bool)
    requires id in s.t.jobs && id in s.routines && JobOk(s, id) && WriteFailsStep(s, id, s.routines[id], left, removed).Some?
    ensures var n := WriteFailsStep(s, id, s.routines[id], left, removed).value; id in n.t.jobs && JobOk(n, id)
  {
    hide Installed;
    hide Terminal;
    hide PartHolds;
  }

  lemma ReportRoutine(s: Sys, id: Id, removed: bool)
    requires id in s.t.jobs && id in s.routines && JobOk(s, id) && ReportStep(s, id, s.routines[id], removed).Some?
    ensures var n := ReportStep(s, id, s.routines[id], removed).value; id in n.t.jobs && JobOk(n, id)
  {
    hide Installed;
    hide Terminal;
    hide RemoveFile;
    hide PartPath;
  }

  lemma CheckContextRoutine(s: Sys, id: Id, removed: bool)
    requires id in s.t.jobs && id in s.routines && JobOk(s, id) && CheckContextStep(s, id, s.routines[id], removed).Some?
    ensures var n := CheckContextStep(s, id, s.routines[id], removed).value; id in n.t.jobs && JobOk(n, id)
  {
    hide Installed;
    hide Terminal;
    hide RemoveFile;
    hide PartPath;
  }

  lemma FlushRoutine(s: Sys, id: Id, ok: bool, removed: bool)
    requires id in s.t.jobs && id in s.routines && JobOk(s, id) && FlushStep(s, id, s.routines[id], ok, removed).Some?
    ensures var n := FlushStep(s, id, s.routines[id], ok, removed).value; id in n.t.jobs && JobOk(n, id)
  {
    hide Installed;
    hide Terminal;
    hide RemoveFile;
    hide PartPath;
  }

  lemma RejectedRoutine(s: Sys, id: Id, removed: bool)
    requires id in s.t.jobs && id in s.routines && JobOk(s, id) && RenameStep(s, id, s.routines[id], Rejected(removed)).Some?
    ensures var n := RenameStep(s, id, s.routines[id], Rejected(removed)).value; id in n.t.jobs && JobOk(n, id)
  {
    hide Installed;
    hide Terminal;
    hide RemoveFile;
    hide PartHolds;
  }

  lemma SettleRoutine(s: Sys, id: Id)
    requires id in s.t.jobs && id in s.routines && JobOk(s, id) && SettleStep(s, id, s.routines[id]).Some?
    ensures var n := SettleStep(s, id, s.routines[id]).value; id in n.t.jobs && JobOk(n, id)
  {
    hide Installed;
  }

  /** Every step of a goroutine before its end, but for the rename itself, keeps what holds of the job at its place. */
  lemma StepRoutine(s: Sys, e: Event)
    requires Next(s, e).Some? && (Early(e) || Copy(e) || Late(e)) && e.id in s.t.jobs && JobOk(s, e.id)
    ensures e.id in Next(s, e).value.t.jobs && JobOk(Next(s, e).value, e.id)
  {
    hide JobOk;
    hide BeginStep;
    hide PrepareStep;
    hide OpenStep;
    hide SetTotalStep;
    hide CreateStep;
    hide ReadStep;
    hide WriteFailsStep;
    hide ReportStep;
    hide CheckContextStep;
    hide FlushStep;
    hide RenameStep;
    hide SettleStep;
    var id := e.id;
    match e
    case Begin(_) => BeginRoutine(s, id);
    case Prepare(_, ok) => PrepareRoutine(s, id, ok);
    case Open(_, result) => OpenRoutine(s, id, result);
    case SetTotal(_, total) => SetTotalRoutine(s, id, total);
    case Create(_, ok) => CreateRoutine(s, id, ok);
    case Read(_, chunk, end) => ReadRoutine(s, id, chunk, end);
    case WriteFails(_, left, removed) => WriteFailsRoutine(s, id, left, removed);
    case Report(_, removed) => ReportRoutine(s, id, removed);
    case CheckContext(_, removed) => CheckContextRoutine(s, id, removed);
    case Flush(_, ok, removed) => FlushRoutine(s, id, ok, removed);
    case Rename(_, outcome) => RejectedRoutine(s, id, outcome.removed);
    case _ => SettleRoutine(s, id);
  }

  lemma GoroutineKeeps(s: Sys, e: Event, initial: map<string, Bytes>)
    requires Inv(s, initial) && Next(s, e).Some?
    requires Early(e) || Copy(e) || Late(e)
    ensures Inv(Next(s, e).value, initial)
  {
    var n := Next(s, e).value;
    OfRoutine(s, e);
    InvJob(s, e.id, initial);
    OpeningNotInstalled(s, e);
    hide Next;
    hide RoutineOk;
    hide JobOk;
    hide Frame;
    StepFrame(s, e);
    StepRoutine(s, e);
    hide Inv;
    OwnStep(s, n, e.id, initial);
  }

  lemma OfRoutine(s: Sys, e: Event)
    requires Next(s, e).Some? && !e.Start? && !e.StoreAlready? && !e.Cancel?
    ensures e.id in s.routines && e.id in s.t.jobs
    ensures Next(s, e) == NextOf(s, e.id, s.routines[e.id], e)
  {
    hide NextOf;
  }

  lemma OpeningNotInstalled(s: Sys, e: Event)
    requires Next(s, e).Some? && e.id in s.t.jobs && JobOk(s, e.id)
    ensures e.Open? ==> !Installed(s.installs, e.id)
  {
    hide Installed;
    hide PartHolds;
  }

  // ---------- the rename, and the end of a goroutine ----------

  lemma RenameTargets(s: Sys, n: Sys, target: string, id: Id, body: Bytes, initial: map<string, Bytes>)
    requires TargetsOk(s, initial)
    requires n.files == s.files[target := body] - {PartPath(target)}
    requires n.installs == s.installs + [Install(target, id, body)]
    ensures TargetsOk(n, initial)
  {
    forall p | IsGguf(p) ensures Lookup(n.files, p) == Held(initial, n.installs, p) {
      PartPaths(target, p);
      assert n.installs[..|n.installs| - 1] == s.installs;
    }
  }

  lemma InstalledMore(installs: seq<Install>, last: Install, j: Id)
    ensures Installed(installs + [last], j) <==> Installed(installs, j) || j == last.id
  {
    var more := installs + [last];
    assert more[|installs|] == last;
    if Installed(installs, j) {
      var i :| 0 <= i < |installs| && installs[i].id == j;
      assert more[i].id == j;
    }
  }

  lemma RenameOthers(s: Sys, n: Sys, id: Id, last: Install)
    requires IndexOk(s) && id in s.routines && last.id == id && last.path == s.t.jobs[id].target
    requires n.t == s.t && n.contexts == s.contexts && n.served == s.served
    requires n.routines.Keys == s.routines.Keys && (forall j :: j in s.routines && j != id ==> n.routines[j] == s.routines[j])
    requires n.files == s.files[last.path := last.body] - {PartPath(last.path)}
    requires n.installs == s.installs + [last]
    ensures forall j :: j in s.t.jobs && j != id ==> SameFor(s, n, j)
  {
    hide Installed;
    forall j | j in s.t.jobs && j != id ensures SameFor(s, n, j) {
      InstalledMore(s.installs, last, j);
      PartPaths(s.t.jobs[j].target, last.path);
      if j in s.routines { ExclusiveParts(s, id, j); }
    }
  }

  lemma RenameInstalls(s: Sys, n: Sys, id: Id, last: Install)
    requires InstallsOk(s) && id in s.t.jobs && !Installed(s.installs, id) && id in s.served
    requires last == Install(s.t.jobs[id].target, id, s.served[id])
    requires n.t == s.t && n.served == s.served && n.installs == s.installs + [last]
    ensures InstallsOk(n)
  {}

  lemma RenamedOk(s: Sys, n: Sys, id: Id)
    requires id in s.t.jobs && id in s.served && Live(s.t.jobs[id]) && s.t.jobs[id].received == |s.served[id]|
    requires n.t == s.t && n.contexts == s.contexts && n.served == s.served && Installed(n.installs, id)
    requires id in s.contexts ==> s.t.jobs[id].state == Cancelled
    requires id in n.routines && n.routines[id].Returned?
    ensures JobOk(n, id)
  {
    hide Installed;
  }

  /** What a rename that goes through changes. */
  lemma RenameState(s: Sys, id: Id, synced: bool)
    requires Next(s, Rename(id, Renamed(synced))).Some?
    ensures id in s.routines && id in s.t.jobs && s.routines[id] == Renaming && PartOf(s, id) in s.files
    ensures var n := Next(s, Rename(id, Renamed(synced))).value;
            var body := s.files[PartOf(s, id)];
            && n.t == s.t && n.contexts == s.contexts && n.served == s.served
            && n.routines == s.routines[id := Returned(if synced then Success else Broken)]
            && n.files == s.files[s.t.jobs[id].target := body] - {PartOf(s, id)}
            && n.installs == s.installs + [Install(s.t.jobs[id].target, id, body)]
  {
    hide PartPath;
  }

  lemma RenamingJob(s: Sys, id: Id, initial: map<string, Bytes>)
    requires Inv(s, initial) && id in s.routines && s.routines[id] == Renaming
    ensures id in s.t.jobs && Live(s.t.jobs[id]) && !Installed(s.installs, id) && id in s.served
    ensures PartHolds(s, id, s.served[id]) && s.t.jobs[id].received == |s.served[id]|
    ensures id in s.contexts ==> s.t.jobs[id].state == Cancelled
  {
    assert RoutineOk(s, id, Renaming);
    hide Installed;
    hide TargetsOk;
    hide InstallsOk;
    hide PartHolds;
  }

  ghost predicate RenamedTo(s: Sys, n: Sys, id: Id, last: Install) {
    && id in s.routines && id in s.t.jobs && Live(s.t.jobs[id]) && !Installed(s.installs, id)
    && (id in s.contexts ==> s.t.jobs[id].state == Cancelled)
    && id in s.served && s.t.jobs[id].received == |s.served[id]| && last == Install(s.t.jobs[id].target, id, s.served[id])
    && n.t == s.t && n.contexts == s.contexts && n.served == s.served && n.installs == s.installs + [last]
    && id in n.routines && n.routines[id].Returned? && n.routines == s.routines[id := n.routines[id]]
    && n.files == s.files[last.path := last.body] - {PartPath(last.path)}
  }

  lemma JobsRenamed(s: Sys, n: Sys, id: Id, last: Install)
    requires IndexOk(s) && JobsOk(s) && RenamedTo(s, n, id, last)
    ensures JobsOk(n)
  {
    hide JobsOk;
    hide JobOk;
    hide SameFor;
    hide Installed;
    hide IsGguf;
    InstalledMore(s.installs, last, id);
    RenamedOk(s, n, id);
    RenameOthers(s, n, id, last);
    hide IndexOk;
    assert n.t.jobs.Keys == s.t.jobs.Keys + {id};
    Others(s, n, id);
  }

  lemma RenamesTo(s: Sys, id: Id, synced: bool, initial: map<string, Bytes>) returns (last: Install)
    requires Inv(s, initial) && Next(s, Rename(id, Renamed(synced))).Some?
    ensures RenamedTo(s, Next(s, Rename(id, Renamed(synced))).value, id, last)
  {
    RenameState(s, id, synced);
    RenamingJob(s, id, initial);
    hide Next;
    hide Inv;
    hide Installed;
    last := Install(s.t.jobs[id].target, id, s.served[id]);
  }

  lemma RenameKeeps(s: Sys, id: Id, synced: bool, initial: map<string, Bytes>)
    requires Inv(s, initial) && Next(s, Rename(id, Renamed(synced))).Some?
    ensures Inv(Next(s, Rename(id, Renamed(synced))).value, initial)
  {
    var last := RenamesTo(s, id, synced, initial);
    var n := Next(s, Rename(id, Renamed(synced))).value;
    hide Next;
    hide JobsOk;
    hide RenamedTo;
    hide IndexOk;
    hide InstallsOk;
    hide TargetsOk;
    JobsRenamed(s, n, id, last);
    RestRenamed(s, n, id, last, initial);
  }

  lemma RestRenamed(s: Sys, n: Sys, id: Id, last: Install, initial: map<string, Bytes>)
    requires IndexOk(s) && InstallsOk(s) && TargetsOk(s, initial) && RenamedTo(s, n, id, last)
    ensures IndexOk(n) && InstallsOk(n) && TargetsOk(n, initial)
  {
    hide IndexOk;
    hide InstallsOk;
    hide TargetsOk;
    hide Installed;
    RenameTargets(s, n, last.path, id, last.body, initial);
    RenameInstalls(s, n, id, last);
    RenameIndex(s, n);
  }

  lemma RenameIndex(s: Sys, n: Sys)
    requires IndexOk(s) && n.t == s.t && n.routines.Keys == s.routines.Keys
    ensures IndexOk(n)
  {
    hide IsGguf;
  }

  lemma ClearState(s: Sys, id: Id)
    requires Next(s, Clear(id)).Some?
    ensures id in s.routines && id in s.t.jobs && s.routines[id] == Exiting
    ensures Next(s, Clear(id)).value == s.(t := ClearTables(s.t, id), routines := s.routines - {id})
  {
    hide ClearTables;
  }

  lemma ClearKeeps(s: Sys, id: Id, initial: map<string, Bytes>)
    requires Inv(s, initial) && Next(s, Clear(id)).Some?
    ensures Inv(Next(s, Clear(id)).value, initial)
  {
    ClearState(s, id);
    InvJob(s, id, initial);
    var n := Next(s, Clear(id)).value;
    hide Next;
    hide JobsOk;
    hide JobOk;
    hide IndexOk;
    hide InstallsOk;
    hide TargetsOk;
    hide ClearTables;
    JobsCleared(s, n, id);
    RestCleared(s, n, id, initial);
  }

  lemma JobsCleared(s: Sys, n: Sys, id: Id)
    requires IndexOk(s) && JobsOk(s) && id in s.routines && s.routines[id] == Exiting && id in s.t.jobs && JobOk(s, id)
    requires n == s.(t := ClearTables(s.t, id), routines := s.routines - {id})
    ensures JobsOk(n)
  {
    hide JobsOk;
    hide SameFor;
    hide Installed;
    hide SettledOk;
    ClearedJobs(s.t, id);
    ClearedOk(s, n, id);
    hide JobOk;
    hide RoutineOk;
    ClearIndex(s, n, id);
    hide IndexOk;
    hide ClearTables;
    assert n.t.jobs.Keys == s.t.jobs.Keys + {id};
    Others(s, n, id);
  }

  lemma ClearedJobs(t: Tables, id: Id)
    ensures ClearTables(t, id).jobs == t.jobs
  {}

  lemma RestCleared(s: Sys, n: Sys, id: Id, initial: map<string, Bytes>)
    requires IndexOk(s) && InstallsOk(s) && TargetsOk(s, initial) && id in s.routines
    requires n == s.(t := ClearTables(s.t, id), routines := s.routines - {id})
    ensures IndexOk(n) && InstallsOk(n) && TargetsOk(n, initial)
  {
    hide IndexOk;
    hide InstallsOk;
    hide TargetsOk;
    ClearedJobs(s.t, id);
    ClearIndex(s, n, id);
    hide ClearTables;
    ClearRest(s, n, initial);
  }

  lemma ClearIndex(s: Sys, n: Sys, id: Id)
    requires IndexOk(s) && id in s.routines
    requires n == s.(t := ClearTables(s.t, id), routines := s.routines - {id})
    ensures IndexOk(n)
    ensures forall j :: j in s.t.jobs && j != id ==> SameFor(s, n, j)
  {
    hide IsGguf;
    hide Installed;
  }

  lemma ClearedOk(s: Sys, n: Sys, id: Id)
    requires id in s.t.jobs && SettledOk(s, id) && (id in s.contexts ==> s.t.jobs[id].state == Cancelled)
    requires n.t.jobs == s.t.jobs && n.contexts == s.contexts && n.served == s.served && n.installs == s.installs
    requires id !in n.routines
    ensures JobOk(n, id)
  {
    hide Installed;
  }

  lemma ClearRest(s: Sys, n: Sys, initial: map<string, Bytes>)
    requires InstallsOk(s) && TargetsOk(s, initial)
    requires n.t.jobs == s.t.jobs && n.files == s.files && n.served == s.served && n.installs == s.installs
    ensures InstallsOk(n) && TargetsOk(n, initial)
  {}

  lemma StepKeeps(s: Sys, e: Event, initial: map<string, Bytes>)
    requires Inv(s, initial) && Next(s, e).Some?
    ensures Inv(Next(s, e).value, initial)
  {
    hide Inv;
    hide Next;
    match e
    case Start(id, target, size) => StartKeeps(s, id, target, size, initial);
    case StoreAlready(id, target, size) => AlreadyKeeps(s, id, target, size, initial);
    case Cancel(id) => CancelKeeps(s, id, initial);
    case Begin(_) => GoroutineKeeps(s, e, initial);
    case Prepare(_, _) => GoroutineKeeps(s, e, initial);
    case Open(_, _) => GoroutineKeeps(s, e, initial);
    case SetTotal(_, _) => GoroutineKeeps(s, e, initial);
    case Create(_, _) => GoroutineKeeps(s, e, initial);
    case Read(_, _, _) => GoroutineKeeps(s, e, initial);
    case WriteFails(_, _, _) => GoroutineKeeps(s, e, initial);
    case Report(_, _) => GoroutineKeeps(s, e, initial);
    case CheckContext(_, _) => GoroutineKeeps(s, e, initial);
    case Flush(_, _, _) => GoroutineKeeps(s, e, initial);
    case Settle(_) => GoroutineKeeps(s, e, initial);
    case Rename(id, outcome) =>
      match outcome {
        case Rejected(_) => GoroutineKeeps(s, e, initial);
        case Renamed(synced) => RenameKeeps(s, id, synced, initial);
      }
    case Clear(id) => ClearKeeps(s, id, initial);
  }

  // ---------- over whole runs ----------

  lemma {:induction false} RunKeeps(s: Sys, events: seq<Event>, initial: map<string, Bytes>)
    requires Inv(s, initial) && Run(s, events).Some?
    ensures Inv(Run(s, events).value, initial)
    decreases |events|
  {
    hide Inv;
    hide Next;
    if events != [] {
      StepKeeps(s, events[0], initial);
      RunKeeps(Next(s, events[0]).value, events[1..], initial);
    }
  }

  lemma RunFromStart(files: map<string, Bytes>, events: seq<Event>)
    requires Run(Init(files), events).Some?
    ensures Inv(Run(Init(files), events).value, files)
  {
    RunKeeps(Init(files), events, files);
  }

  /** In every interleaving, `active` maps exactly the targets of the running goroutines to them,
      `cancel` holds exactly these, and no two of them write the same partial file. */
  lemma ActiveIsIndex(files: map<string, Bytes>, events: seq<Event>)
    requires Run(Init(files), events).Some?
    ensures var s := Run(Init(files), events).value;
            && s.t.cancel == s.routines.Keys <= s.t.jobs.Keys
            && (forall p, id :: p in s.t.active && s.t.active[p] == id
                  <==> id in s.routines && id in s.t.jobs && s.t.jobs[id].target == p)
            && (forall a, b :: a in s.routines && b in s.routines && a != b ==>
                  PartPath(s.t.jobs[a].target) != PartPath(s.t.jobs[b].target))
            && (forall a, b :: a in s.routines && b in s.routines ==>
                  PartPath(s.t.jobs[a].target) != s.t.jobs[b].target)
  {
    RunFromStart(files, events);
    var s := Run(Init(files), events).value;
    forall a, b | a in s.routines && b in s.routines
      ensures PartPath(s.t.jobs[a].target) != s.t.jobs[b].target
      ensures a != b ==> PartPath(s.t.jobs[a].target) != PartPath(s.t.jobs[b].target)
    {
      PartPaths(s.t.jobs[a].target, s.t.jobs[b].target);
    }
  }

  lemma TablesElse(t: Tables, id: Id, j: Id, target: string, size: nat)
    requires id != j
    ensures SameEntry(t, StartTables(t, id, target, size).0, j)
    ensures SameEntry(t, AlreadyTables(t, id, target, size), j)
    ensures SameEntry(t, CancelTables(t, id).0, j)
    ensures SameEntry(t, ClearTables(t, id), j)
  {}

  lemma UpdateElse(t: Tables, id: Id, j: Id, change: Option<Change>)
    requires id != j
    ensures SameEntry(t, match change case None => t case Some(c) => UpdateTables(t, id, c), j)
  {
    hide Changed;
  }

  predicate SameEntry(t: Tables, n: Tables, j: Id) {
    (j in n.jobs <==> j in t.jobs) && (j in t.jobs ==> n.jobs[j] == t.jobs[j])
  }

  /** A step of another job leaves a job, its goroutine and its context alone. */
  lemma ElseSame(s: Sys, e: Event, id: Id)
    requires Next(s, e).Some? && e.id != id
    ensures var n := Next(s, e).value;
            && SameEntry(s.t, n.t, id)
            && (id in n.routines <==> id in s.routines) && (id in s.routines ==> n.routines[id] == s.routines[id])
            && (id in n.contexts <==> id in s.contexts)
  {
    hide SameEntry;
    if Early(e) || Copy(e) || Late(e) {
      StepEffect(s, e);
      UpdateElse(s.t, e.id, id, ChangeOf(s.routines[e.id], e));
      hide Next;
    } else if e.Rename? {
      RenameState(s, e.id, e.outcome.synced);
      hide Next;
      assert SameEntry(s.t, s.t, id) by { UpdateElse(s.t, e.id, id, None); }
    } else {
      TablesElse(s.t, e.id, id, if e.Start? || e.StoreAlready? then e.target else "", if e.Start? || e.StoreAlready? then e.size else 0);
      if e.Clear? {
        ClearState(s, e.id);
        hide Next;
      } else {
        hide NextOf;
        hide StartTables;
        hide CancelTables;
        hide AlreadyTables;
        hide IsGguf;
      }
    }
  }

  /** A step that is no rename of the job leaves the installations of it as they were. */
  lemma OtherInstalls(s: Sys, e: Event, id: Id)
    requires Next(s, e).Some? && !(e.Rename? && e.id == id && e.outcome.Renamed?)
    ensures Installed(Next(s, e).value.installs, id) <==> Installed(s.installs, id)
  {
    hide Installed;
    if Early(e) || Copy(e) || Late(e) {
      StepEffect(s, e);
      hide Next;
    } else if e.Rename? {
      RenameState(s, e.id, e.outcome.synced);
      hide Next;
      InstalledMore(s.installs, Install(s.t.jobs[e.id].target, e.id, s.files[PartOf(s, e.id)]), id);
    } else if e.Clear? {
      ClearState(s, e.id);
      hide Next;
    } else {
      hide NextOf;
    }
  }

  lemma TerminalStep(s: Sys, e: Event, id: Id)
    requires Next(s, e).Some?
    requires id in s.t.jobs && Terminal(s.t.jobs[id].state) && JobOk(s, id)
    ensures id in Next(s, e).value.t.jobs && Next(s, e).value.t.jobs[id].state == s.t.jobs[id].state
  {
    hide JobOk;
    if e.id != id {
      ElseSame(s, e, id);
      hide Next;
    } else if e.Cancel? {
      CancelNone(s, id);
      hide Next;
    } else if Early(e) || Copy(e) || Late(e) {
      StepEffect(s, e);
      ReturnsFrom(s, e);
      OwnTerminal(s.t, id, s.routines[id], e, s);
      hide Next;
    } else if e.Rename? {
      RenameState(s, id, e.outcome.synced);
      hide Next;
    } else if e.Clear? {
      ClearState(s, id);
      hide Next;
    } else {
      hide NextOf;
    }
  }

  /** A goroutine that has returned settles its job next. */
  lemma ReturnsFrom(s: Sys, e: Event)
    requires Next(s, e).Some? && (Early(e) || Copy(e) || Late(e))
    ensures e.id in s.routines && e.id in s.t.jobs
    ensures (s.routines[e.id].Returned? <==> e.Settle?) && s.routines[e.id] != Exiting
    ensures e.Settle? ==> e.id in Next(s, e).value.routines && Next(s, e).value.routines[e.id] == Exiting
  {
    hide UpdateTables;
    hide AfterRead;
    hide PartPath;
    hide RemoveFile;
    hide Possible;
  }

  lemma OwnTerminal(t: Tables, id: Id, pc: Pc, e: Event, s: Sys)
    requires t == s.t && id in s.routines && pc == s.routines[id] && id in t.jobs && Terminal(t.jobs[id].state) && JobOk(s, id)
    requires (pc.Returned? <==> e.Settle?) && pc != Exiting
    ensures var n := match ChangeOf(pc, e) case None => t case Some(c) => UpdateTables(t, id, c);
            id in n.jobs && n.jobs[id].state == t.jobs[id].state
  {
    hide Installed;
    hide PartHolds;
    hide Delivered;
  }

  lemma InvJob(s: Sys, id: Id, initial: map<string, Bytes>)
    requires Inv(s, initial) && id in s.t.jobs
    ensures JobOk(s, id)
  {}

  /** A job that reached a terminal state keeps it, whatever happens afterwards. */
  lemma {:induction false} TerminalForever(s: Sys, events: seq<Event>, id: Id, initial: map<string, Bytes>)
    requires Inv(s, initial) && Run(s, events).Some?
    requires id in s.t.jobs && Terminal(s.t.jobs[id].state)
    ensures id in Run(s, events).value.t.jobs
    ensures Run(s, events).value.t.jobs[id].state == s.t.jobs[id].state
    decreases |events|
  {
    hide Inv;
    hide Next;
    if events != [] {
      InvJob(s, id, initial);
      TerminalStep(s, events[0], id);
      StepKeeps(s, events[0], initial);
      TerminalForever(Next(s, events[0]).value, events[1..], id, initial);
    }
  }

  lemma {:induction false} HeldIsInstall(initial: map<string, Bytes>, installs: seq<Install>, path: string)
    ensures Held(initial, installs, path) == Lookup(initial, path)
         || exists i :: 0 <= i < |installs| && installs[i].path == path && Held(initial, installs, path) == Some(installs[i].body)
    decreases |installs|
  {
    if installs != [] && installs[|installs| - 1].path != path {
      var init := installs[..|installs| - 1];
      HeldIsInstall(initial, init, path);
      assert forall i :: 0 <= i < |init| ==> init[i] == installs[i];
      if Held(initial, init, path) != Lookup(initial, path) {
        var i :| 0 <= i < |init| && init[i].path == path && Held(initial, init, path) == Some(init[i].body);
        assert installs[i].path == path;
      }
    }
  }

  /** At every point of every run a model file is what it was at the start, or one complete response body. */
  lemma TargetsNeverMixed(files: map<string, Bytes>, events: seq<Event>, path: string)
    requires Run(Init(files), events).Some? && IsGguf(path)
    ensures var s := Run(Init(files), events).value;
            || Lookup(s.files, path) == Lookup(files, path)
            || exists id :: id in s.served && id in s.t.jobs && s.t.jobs[id].target == path
                            && Lookup(s.files, path) == Some(s.served[id])
  {
    RunFromStart(files, events);
    var s := Run(Init(files), events).value;
    HeldIsInstall(files, s.installs, path);
    if Lookup(s.files, path) != Lookup(files, path) {
      var i :| 0 <= i < |s.installs| && s.installs[i].path == path && Lookup(s.files, path) == Some(s.installs[i].body);
      assert s.installs[i].id in s.served;
    }
  }

  lemma CompletedDelivered(s: Sys, id: Id)
    requires id in s.t.jobs && JobOk(s, id) && s.t.jobs[id].state == Completed
    ensures Delivered(s, id)
  {
    hide Installed;
  }

  /** A completed job received its whole body, and that body was renamed onto its target once. */
  lemma CompletedIsWhole(files: map<string, Bytes>, events: seq<Event>, id: Id)
    requires Run(Init(files), events).Some?
    requires var s := Run(Init(files), events).value; id in s.t.jobs && s.t.jobs[id].state == Completed
    ensures var s := Run(Init(files), events).value;
            && id in s.served && s.t.jobs[id].received == |s.served[id]|
            && exists i :: 0 <= i < |s.installs|
                 && s.installs[i] == Install(s.t.jobs[id].target, id, s.served[id])
                 && forall j :: 0 <= j < |s.installs| && j != i ==> s.installs[j].id != id
  {
    RunFromStart(files, events);
    var s := Run(Init(files), events).value;
    InvJob(s, id, files);
    CompletedDelivered(s, id);
    hide RoutineOk;
    var i :| 0 <= i < |s.installs| && s.installs[i].id == id;
    assert s.installs[i] == Install(s.t.jobs[id].target, id, s.served[id]);
  }

  /** The race that Cancel can lose: after the last look at the context, a job is reported cancelled
      although its body is put in place. */
  lemma CancelTooLate(s: Sys, id: Id, initial: map<string, Bytes>) returns (n: Sys)
    requires Inv(s, initial) && id in s.routines && s.routines[id] == Flushing && s.t.jobs[id].state == Running
    ensures Run(s, [Event.Cancel(id), Flush(id, true, false), Rename(id, Renamed(true)), Event.Settle(id)]) == Some(n)
    ensures id in n.t.jobs && n.t.jobs[id].state == Cancelled && id in s.served
    ensures Lookup(n.files, s.t.jobs[id].target) == Some(s.served[id])
  {
    hide Installed;
    hide IsGguf;
    hide TargetsOk;
    hide InstallsOk;
    hide Held;
    assert RoutineOk(s, id, Flushing);
    hide JobsOk;
    hide RoutineOk;
    var e0, e1, e2, e3 := Event.Cancel(id), Flush(id, true, false), Rename(id, Renamed(true)), Event.Settle(id);
    var s1 := Next(s, e0).value;
    var s2 := Next(s1, e1).value;
    FinishCancelled(s2, id, s.served[id]);
    var s3 := Next(s2, e2).value;
    n := Next(s3, e3).value;
    hide Next;
    RunFour(s, e0, s1, e1, s2, e2, s3, e3, n);
  }

  lemma FinishCancelled(s: Sys, id: Id, body: Bytes)
    requires id in s.routines && s.routines[id] == Renaming && id in s.t.jobs && s.t.jobs[id].state == Cancelled
    requires PartPath(s.t.jobs[id].target) in s.files && s.files[PartPath(s.t.jobs[id].target)] == body
    ensures var moved := Next(s, Rename(id, Renamed(true)));
            moved.Some? && Next(moved.value, Event.Settle(id)).Some?
    ensures var n := Next(Next(s, Rename(id, Renamed(true))).value, Event.Settle(id)).value;
            id in n.t.jobs && n.t.jobs[id].state == Cancelled && Lookup(n.files, s.t.jobs[id].target) == Some(body)
  {
    PartIsNotTarget(s.t.jobs[id].target);
  }

  lemma PartIsNotTarget(target: string)
    ensures PartPath(target) != target
  {
    assert |PartPath(target)| != |target|;
  }

  lemma RunFour(s: Sys, e0: Event, s1: Sys, e1: Event, s2: Sys, e2: Event, s3: Sys, e3: Event, n: Sys)
    requires Next(s, e0) == Some(s1) && Next(s1, e1) == Some(s2) && Next(s2, e2) == Some(s3) && Next(s3, e3) == Some(n)
    ensures Run(s, [e0, e1, e2, e3]) == Some(n)
  {
    hide Next;
    assert [e0, e1, e2, e3][1..] == [e1, e2, e3];
    assert [e1, e2, e3][1..] == [e2, e3];
    assert [e2, e3][1..] == [e3];
    assert [e3][1..] == [];
    assert Run(s3, [e3]) == Run(n, []);
    assert Run(s2, [e2, e3]) == Run(s3, [e3]);
    assert Run(s1, [e1, e2, e3]) == Run(s2, [e2, e3]);
  }
}
