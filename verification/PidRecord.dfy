/** The PID file of the Router process: starts that write it, and waiters that remove it. */
module PidRecord {
  import opened Wrappers

  /** A process id; ids are not used twice. */
  type Pid = nat

  /** `Garbage` is a file without a number, as one is between being emptied and being filled. */
  datatype File = Absent | Garbage | Holds(pid: Pid)

  /** A child and its waiter: the child runs, has exited, the waiter has read the file and will remove it, is done. */
  datatype Place = Running | Exited | Checked | Finished

  /** What a start, which holds the mutex, has done so far. */
  datatype Phase = Idle | Spawned(pid: Pid) | Filling(pid: Pid) | Written(pid: Pid, ok: bool) | Failing(pid: Pid)

  /** `recorded` holds the children whose channel is closed. `kept` tells that the current child's record was
      written and not removed by the runtime. `overlapped` holds the children while whose record was being
      written some waiter was about to remove the file. */
  datatype State = State(file: File, places: map<Pid, Place>, recorded: set<Pid>, phase: Phase,
                         current: Option<Pid>, kept: bool, overlapped: set<Pid>)

  const START := State(Absent, map[], {}, Idle, None, false, {})

  datatype Step =
    | Spawn(pid: Pid)
    | OpenFails
    | Truncate
    | Fill(ok: bool)
    | Announce
    | Exit(pid: Pid)
    | Check(pid: Pid)
    | Delete(pid: Pid)
    | CleanUp(stop: bool)
    | Recover

  predicate Removing(s: State) {
    exists p :: p in s.places && s.places[p] == Checked
  }

  predicate Alive(s: State, pid: Pid) {
    pid in s.places && s.places[pid] == Running
  }

  /** What `Remove` leaves when nothing comes between reading and deleting. */
  function Removed(file: File, pid: Pid): File {
    if file == Garbage || file == Holds(pid) then Absent else file
  }

  function Next(s: State, step: Step): Option<State> {
    match step
    case Spawn(pid) =>
      if s.phase != Idle || pid in s.places || (s.current.Some? && Alive(s, s.current.value)) then None
      else Some(s.(places := s.places[pid := Running], phase := Spawned(pid), current := Some(pid), kept := false))
    case OpenFails =>
      if !s.phase.Spawned? then None else Some(s.(phase := Written(s.phase.pid, false)))
    case Truncate =>
      if !s.phase.Spawned? then None
      else Some(s.(file := Garbage, phase := Filling(s.phase.pid),
                   overlapped := if Removing(s) then s.overlapped + {s.phase.pid} else s.overlapped))
    case Fill(ok) =>
      if !s.phase.Filling? then None
      else
        // a file that was deleted meanwhile stays deleted
        Some(s.(file := if ok && s.file == Garbage then Holds(s.phase.pid) else s.file,
                phase := Written(s.phase.pid, ok), kept := ok))
    case Announce =>
      if !s.phase.Written? then None
      else Some(s.(recorded := s.recorded + {s.phase.pid}, phase := if s.phase.ok then Idle else Failing(s.phase.pid)))
    case Exit(pid) =>
      if !Alive(s, pid) then None else Some(s.(places := s.places[pid := Exited]))
    case Check(pid) =>
      if pid !in s.places || s.places[pid] != Exited || pid !in s.recorded then None
      else if Removed(s.file, pid) == s.file then Some(s.(places := s.places[pid := Finished]))
      else Some(s.(places := s.places[pid := Checked],
                   overlapped := if s.phase.Filling? then s.overlapped + {s.phase.pid} else s.overlapped))
    case Delete(pid) =>
      if pid !in s.places || s.places[pid] != Checked then None
      else Some(s.(file := Absent, places := s.places[pid := Finished]))
    case CleanUp(stop) =>
      if s.current.None? || !(s.phase.Failing? || s.phase.Idle?) then None
      else if !stop && (s.phase.Failing? || Alive(s, s.current.value)) then None
      else Some(s.(file := Removed(s.file, s.current.value), kept := false, phase := Idle,
                   current := if stop then None else s.current))
    case Recover =>
      if s.phase != Idle then None
      else Some(s.(file := if s.file == Garbage || (s.file.Holds? && !Alive(s, s.file.pid)) then Absent else s.file))
  }

  function Run(s: State, steps: seq<Step>): Option<State>
    decreases |steps|
  {
    if steps == [] then Some(s)
    else match Next(s, steps[0])
      case None => None
      case Some(n) => Run(n, steps[1..])
  }

  /** Where ids occur: a record is of a child whose waiter has not finished; a waiter reads only after the write. */
  ghost predicate Sound(s: State) {
    && (s.file.Holds? ==> s.file.pid in s.places && s.places[s.file.pid] != Finished)
    && (s.phase != Idle ==> s.current == Some(s.phase.pid))
    && (s.phase.Spawned? || s.phase.Filling? || s.phase.Written? ==> s.phase.pid !in s.recorded)
    && (s.current.Some? ==> s.current.value in s.places)
    && (forall p :: p in s.places && (s.places[p] == Checked || s.places[p] == Finished) ==> p in s.recorded)
    && s.recorded <= s.places.Keys && s.overlapped <= s.places.Keys
    && (s.phase.Spawned? ==> s.phase.pid !in s.overlapped && !s.kept)
    && (s.phase.Written? ==> s.kept == s.phase.ok)
    && (s.kept ==> s.current.Some? && !s.phase.Spawned? && !s.phase.Filling? && !s.phase.Failing?)
  }

  ghost predicate OtherRemoving(s: State, q: Pid) {
    exists p :: p in s.places && p != q && s.places[p] == Checked
  }

  /** Without an overlap the file is the current child's; with one, some waiter is still about to delete it. */
  ghost predicate Owned(s: State) {
    && (s.phase.Filling? && s.phase.pid !in s.overlapped ==> s.file == Garbage && !OtherRemoving(s, s.phase.pid))
    && (s.phase.Filling? && s.phase.pid in s.overlapped && s.file == Garbage ==> OtherRemoving(s, s.phase.pid))
    && (s.kept && s.current.Some? && s.current.value !in s.overlapped ==>
          && !OtherRemoving(s, s.current.value)
          && (s.file == Holds(s.current.value) || (s.file == Absent && !Alive(s, s.current.value))))
    && (s.file.Holds? && s.file.pid in s.overlapped ==> OtherRemoving(s, s.file.pid))
    && (s.phase.Filling? ==> !s.file.Holds?)
  }

  lemma StepSound(s: State, step: Step)
    requires Sound(s) && Next(s, step).Some?
    ensures Sound(Next(s, step).value)
  {
    hide Removing;
  }

  lemma StillRemoving(s: State, n: State)
    requires forall p :: p in s.places && s.places[p] == Checked ==> p in n.places && n.places[p] == Checked
    ensures forall q :: OtherRemoving(s, q) ==> OtherRemoving(n, q)
  {}

  lemma CheckOwned(s: State, pid: Pid)
    requires Sound(s) && Owned(s) && Next(s, Check(pid)).Some?
    ensures Owned(Next(s, Check(pid)).value)
  {
    var n := Next(s, Check(pid)).value;
    StillRemoving(s, n);
    if n.places[pid] == Checked && s.phase.Filling? { assert OtherRemoving(n, s.phase.pid); }
  }

  lemma SpawnOrExitOwned(s: State, step: Step)
    requires Sound(s) && Owned(s) && Next(s, step).Some? && (step.Spawn? || step.Exit?)
    ensures Owned(Next(s, step).value)
  {
    StillRemoving(s, Next(s, step).value);
  }

  lemma TruncateOwned(s: State)
    requires Sound(s) && Owned(s) && Next(s, Truncate).Some?
    ensures Owned(Next(s, Truncate).value)
  {
    var n := Next(s, Truncate).value;
    if Removing(s) {
      var p :| p in s.places && s.places[p] == Checked;
      assert p != s.phase.pid;
      assert OtherRemoving(n, s.phase.pid);
    }
  }

  lemma OtherOwned(s: State, step: Step)
    requires Sound(s) && Owned(s) && Next(s, step).Some?
    requires !step.Spawn? && !step.Exit? && !step.Check? && !step.Truncate?
    ensures Owned(Next(s, step).value)
  {
    hide Removing;
  }

  lemma StepOwned(s: State, step: Step)
    requires Sound(s) && Owned(s) && Next(s, step).Some?
    ensures Owned(Next(s, step).value)
  {
    hide Sound;
    hide Owned;
    hide Next;
    if step.Check? {
      CheckOwned(s, step.pid);
    } else if step.Spawn? || step.Exit? {
      SpawnOrExitOwned(s, step);
    } else if step.Truncate? {
      TruncateOwned(s);
    } else {
      OtherOwned(s, step);
    }
  }

  lemma {:induction false} RunKeeps(s: State, steps: seq<Step>)
    requires Sound(s) && Owned(s) && Run(s, steps).Some?
    ensures Sound(Run(s, steps).value) && Owned(Run(s, steps).value)
    decreases |steps|
  {
    hide Sound;
    hide Owned;
    hide Next;
    if steps != [] {
      StepSound(s, steps[0]);
      StepOwned(s, steps[0]);
      RunKeeps(Next(s, steps[0]).value, steps[1..]);
    }
  }

  /** However early the child exits: once its start has announced the record and its waiter is done, the file does
      not name it. The record of the running child, once written, is there at every moment if no removal overlapped
      the write, and is lost after the pending removals if one did. */
  lemma RecordExact(steps: seq<Step>)
    requires Run(START, steps).Some?
    ensures var s := Run(START, steps).value;
            && (forall q :: q in s.places && s.places[q] == Finished ==> s.file != Holds(q))
            && (s.kept && s.current.Some? && Alive(s, s.current.value) ==>
                  && (s.current.value !in s.overlapped ==> s.file == Holds(s.current.value))
                  && (!Removing(s) ==> (s.file == Holds(s.current.value) <==> s.current.value !in s.overlapped)))
  {
    hide Next;
    RunKeeps(START, steps);
  }

  function ShortLife(p: Pid): seq<Step> {
    [Spawn(p), Truncate, Fill(true), Announce, Exit(p), Check(p)]
  }

  function StartThenDelete(p: Pid, q: Pid): seq<Step> {
    [Spawn(q), Truncate, Fill(true), Announce, Delete(p)]
  }

  /** From every state in which a start is possible, a waiter that reads the file before the next start writes it
      and deletes it afterwards takes that start's record away while its child runs. */
  lemma LateDeleteLosesRecord(s: State, p: Pid, q: Pid)
    requires s.phase == Idle && (s.current.Some? ==> !Alive(s, s.current.value))
    requires p !in s.places && q !in s.places && p != q
    ensures var n := Run(s, ShortLife(p) + StartThenDelete(p, q));
            n.Some? && n.value.file == Absent && n.value.current == Some(q) && n.value.kept && Alive(n.value, q)
  {
    hide Run;
    hide Next;
    hide ShortLife;
    hide StartThenDelete;
    LiveShort(s, p);
    RunAppend(s, ShortLife(p), StartThenDelete(p, q));
    LateDelete(Run(s, ShortLife(p)).value, p, q);
  }

  lemma StartRecorded(s: State, p: Pid) returns (n: State)
    requires s.phase == Idle && (s.current.Some? ==> !Alive(s, s.current.value)) && p !in s.places
    ensures Run(s, ShortLife(p)) == Run(n, ShortLife(p)[4..])
    ensures n.phase == Idle && n.current == Some(p) && n.places == s.places[p := Running] && n.file == Holds(p) && p in n.recorded
  {
    hide Run;
    hide Removing;
    var steps := ShortLife(p);
    assert steps[0..] == steps;
    var s1 := After(s, steps, 0);
    var s2 := After(s1, steps, 1);
    var s3 := After(s2, steps, 2);
    n := After(s3, steps, 3);
  }

  lemma LiveShort(s: State, p: Pid)
    requires s.phase == Idle && (s.current.Some? ==> !Alive(s, s.current.value)) && p !in s.places
    ensures var n := Run(s, ShortLife(p));
            n.Some? && n.value.phase == Idle && n.value.current == Some(p) && n.value.places == s.places[p := Checked]
  {
    var s4 := StartRecorded(s, p);
    hide Run;
    hide Removing;
    var steps := ShortLife(p);
    var s5 := After(s4, steps, 4);
    var s6 := After(s5, steps, 5);
    assert steps[6..] == [];
    RunNone(s6);
  }

  lemma RunNone(s: State)
    ensures Run(s, []) == Some(s)
  {}

  lemma LateDelete(s: State, p: Pid, q: Pid)
    requires s.phase == Idle && s.current == Some(p) && p in s.places && s.places[p] == Checked && q !in s.places
    ensures var n := Run(s, StartThenDelete(p, q));
            n.Some? && n.value.file == Absent && n.value.current == Some(q) && n.value.kept && Alive(n.value, q)
  {
    hide Run;
    hide Removing;
    var steps := StartThenDelete(p, q);
    var s1 := After(s, steps, 0);
    var s2 := After(s1, steps, 1);
    var s3 := After(s2, steps, 2);
    var s4 := After(s3, steps, 3);
    var s5 := After(s4, steps, 4);
    RunEnds(s, steps, s5);
  }

  lemma {:induction false} RunAppend(s: State, a: seq<Step>, b: seq<Step>)
    requires Run(s, a).Some?
    ensures Run(s, a + b) == Run(Run(s, a).value, b)
    decreases |a|
  {
    hide Next;
    if a == [] {
      assert a + b == b;
    } else {
      assert (a + b)[1..] == a[1..] + b;
      RunAppend(Next(s, a[0]).value, a[1..], b);
    }
  }

  lemma After(s: State, steps: seq<Step>, k: nat) returns (n: State)
    requires k < |steps| && Next(s, steps[k]).Some?
    ensures Next(s, steps[k]) == Some(n) && Run(s, steps[k..]) == Run(n, steps[k + 1..])
  {
    n := Next(s, steps[k]).value;
    assert steps[k..][1..] == steps[k + 1..];
  }

  lemma RunEnds(s: State, steps: seq<Step>, n: State)
    requires Run(s, steps[0..]) == Run(n, steps[|steps|..])
    ensures Run(s, steps) == Some(n)
  {
    assert steps[0..] == steps && steps[|steps|..] == [];
  }

  // ---------- what the removals take ----------

  /** A look for a running process leaves no file that names none: it keeps the record of a living process as it is,
      and takes any other one, also one without a number. */
  lemma RecoverTakes(s: State)
    requires s.phase == Idle
    ensures var n := Next(s, Recover);
            && n.Some? && n.value == s.(file := n.value.file)
            && (n.value.file == Absent || (n.value.file.Holds? && Alive(s, n.value.file.pid)))
            && (s.file.Holds? && Alive(s, s.file.pid) ==> n.value.file == s.file)
  {}

  /** A waiter whose two steps nothing comes between takes the record of its own child and a file without a number,
      and leaves the record of another process alone. */
  lemma WaiterTakes(s: State, pid: Pid)
    requires pid in s.places && s.places[pid] == Exited && pid in s.recorded
    ensures match s.file
            case Absent => Run(s, [Check(pid)]) == Some(s.(places := s.places[pid := Finished]))
            case Garbage => Run(s, [Check(pid), Delete(pid)]).Some? && Run(s, [Check(pid), Delete(pid)]).value.file == Absent
            case Holds(other) =>
              if other == pid then Run(s, [Check(pid), Delete(pid)]).Some? && Run(s, [Check(pid), Delete(pid)]).value.file == Absent
              else Run(s, [Check(pid)]) == Some(s.(places := s.places[pid := Finished]))
  {
    hide Removing;
    var checked := Next(s, Check(pid)).value;
    assert [Check(pid)][1..] == [] && [Check(pid), Delete(pid)][1..] == [Delete(pid)] && [Delete(pid)][1..] == [];
    assert Run(s, [Check(pid)]) == Run(checked, []);
    assert Run(s, [Check(pid), Delete(pid)]) == Run(checked, [Delete(pid)]);
    if checked.places[pid] == Checked { assert Run(checked, [Delete(pid)]) == Run(Next(checked, Delete(pid)).value, []); }
  }

  /** A stop or a failed start takes the record of its own child and a file without a number, and no other. */
  lemma CleanUpTakes(s: State, stop: bool)
    requires Next(s, CleanUp(stop)).Some?
    ensures var n := Next(s, CleanUp(stop)).value;
            && s.current.Some? && n.file != Garbage && n.file != Holds(s.current.value)
            && (s.file.Holds? && s.file.pid != s.current.value ==> n.file == s.file)
            && n.places == s.places && n.recorded == s.recorded && n.phase == Idle
  {}

  // ---------- one child at a time ----------

  /** No stop of the run gives up a child that still runs. */
  ghost predicate StopsWait(s: State, steps: seq<Step>)
    decreases |steps|
  {
    steps != [] && Next(s, steps[0]).Some? ==>
      && (steps[0] == CleanUp(true) && s.current.Some? ==> !Alive(s, s.current.value))
      && StopsWait(Next(s, steps[0]).value, steps[1..])
  }

  ghost predicate OneRuns(s: State) {
    forall p: Pid :: Alive(s, p) ==> s.current == Some(p)
  }

  lemma StepOne(s: State, step: Step)
    requires OneRuns(s) && Next(s, step).Some? && (step == CleanUp(true) && s.current.Some? ==> !Alive(s, s.current.value))
    ensures OneRuns(Next(s, step).value)
  {
    hide Removing;
    hide Removed;
  }

  lemma {:induction false} RunOne(s: State, steps: seq<Step>)
    requires OneRuns(s) && Run(s, steps).Some? && StopsWait(s, steps)
    ensures OneRuns(Run(s, steps).value)
    decreases |steps|
  {
    hide Next;
    hide OneRuns;
    if steps != [] {
      StepOne(s, steps[0]);
      RunOne(Next(s, steps[0]).value, steps[1..]);
    }
  }

  /** As long as every stop waits for its child, never two children run at once: a running one is the current one. */
  lemma OneChildRuns(steps: seq<Step>, p: Pid, q: Pid)
    requires Run(START, steps).Some? && StopsWait(START, steps)
    requires Alive(Run(START, steps).value, p) && Alive(Run(START, steps).value, q)
    ensures p == q && Run(START, steps).value.current == Some(p)
  {
    hide Next;
    RunOne(START, steps);
  }
}
