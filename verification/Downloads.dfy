/** The download manager: the tables under its mutex, the goroutines that run the jobs, and the files they write. */
module Downloads {
  type Id = string
  type Bytes = seq<bv8>

  datatype JobState = Queued | Running | Completed | Failed | Cancelled | AlreadyDownloaded

  datatype Job = Job(state: JobState, target: string, received: nat, total: int)

  /** States a job never leaves. */
  predicate Terminal(s: JobState) { s != Queued && s != Running }

  // ---------- critical sections ----------

  /** The three maps that the mutex guards. `cancel` holds the jobs whose context can be cancelled. */
  datatype Tables = Tables(jobs: map<Id, Job>, active: map<string, Id>, cancel: set<Id>)

  datatype CancelResult = NotFound | Conflict | Done

  /** The start of a download: joins the job that is active on the target, or enters a new one. */
  function StartTables(t: Tables, id: Id, target: string, size: int): (Tables, Id) {
    if target in t.active && t.active[target] != "" then (t, t.active[target])
    else (Tables(t.jobs[id := Job(Queued, target, 0, size)], t.active[target := id], t.cancel + {id}), id)
  }

  function AlreadyTables(t: Tables, id: Id, target: string, size: nat): Tables {
    t.(jobs := t.jobs[id := Job(AlreadyDownloaded, target, size, size)])
  }

  function CancelTables(t: Tables, id: Id): (Tables, CancelResult) {
    if id !in t.jobs then (t, NotFound)
    else if t.jobs[id].state != Queued && t.jobs[id].state != Running then (t, Conflict)
    else (t.(jobs := t.jobs[id := t.jobs[id].(state := Cancelled)]), Done)
  }

  /** `update(id, fn)` for the closures of `run`, `download` and `addProgress`. */
  datatype Change = Begin | SetTotal(total: int) | Progress(n: nat) | Settle(outcome: Outcome)
  datatype Outcome = Success | Aborted | Broken

  function Changed(job: Job, change: Change): Job {
    match change
    case Begin => if job.state == Cancelled then job else job.(state := Running)
    case SetTotal(total) => if total > 0 then job.(total := total) else job
    case Progress(n) => job.(received := job.received + n)
    case Settle(outcome) =>
      if job.state == Cancelled || outcome == Aborted then job.(state := Cancelled)
      else if outcome == Broken then job.(state := Failed)
      else job.(state := Completed)
  }

  function UpdateTables(t: Tables, id: Id, change: Change): Tables {
    if id in t.jobs then t.(jobs := t.jobs[id := Changed(t.jobs[id], change)]) else t
  }

  function ClearTables(t: Tables, id: Id): Tables {
    if id !in t.jobs then t
    else
      var target := t.jobs[id].target;
      Tables(t.jobs,
             if target in t.active && t.active[target] == id then t.active - {target} else t.active,
             t.cancel - {id})
  }

  /** One read of the response body. */
  datatype ReadResult = ReadResult(chunk: Bytes, end: End)
  datatype End = More | Eof | Error(outcome: Outcome)

  class Manager {
    var jobs: map<Id, Job>
    var active: map<string, Id>
    var cancel: set<Id>
    /** The contexts whose cancel function has been called. */
    var cancelledContexts: set<Id>

    constructor ()
      ensures View() == Tables(map[], map[], {}) && cancelledContexts == {}
    {
      jobs, active, cancel, cancelledContexts := map[], map[], {}, {};
    }

    ghost function View(): Tables
      reads this
    {
      Tables(jobs, active, cancel)
    }

    /** The locked part of Start. The id is the one `newID` returned. */
    method Start(id: Id, target: string, size: int) returns (job: Id, spawned: bool)
      requires id != ""
      modifies this
      ensures (View(), job) == StartTables(old(View()), id, target, size)
      ensures cancelledContexts == old(cancelledContexts)
      ensures spawned ==> job == id && id in cancel && active[target] == id
      ensures !spawned ==> View() == old(View())
    {
      if target in active && active[target] != "" {
        return active[target], false;
      }
      jobs := jobs[id := Job(Queued, target, 0, size)];
      active := active[target := id];
      cancel := cancel + {id};
      return id, true;
    }

    /** The job is whole and over: it is neither indexed nor cancellable, and no other job changes. */
    method StoreAlreadyDownloaded(id: Id, target: string, size: nat)
      modifies this
      ensures View() == AlreadyTables(old(View()), id, target, size)
      ensures id in jobs && Terminal(jobs[id].state) && jobs[id].received == jobs[id].total == size
      ensures CancelTables(View(), id).1 == Conflict
      ensures active == old(active) && cancel == old(cancel) && jobs - {id} == old(jobs) - {id}
      ensures cancelledContexts == old(cancelledContexts)
    {
      jobs := jobs[id := Job(AlreadyDownloaded, target, size, size)];
    }

    method Cancel(id: Id) returns (result: CancelResult)
      modifies this
      ensures (View(), result) == CancelTables(old(View()), id)
      ensures cancelledContexts == old(cancelledContexts) + if result == Done && id in cancel then {id} else {}
    {
      if id !in jobs {
        return NotFound;
      }
      var job := jobs[id];
      if job.state != Queued && job.state != Running {
        return Conflict;
      }
      if id in cancel {
        cancelledContexts := cancelledContexts + {id};
      }
      jobs := jobs[id := job.(state := Cancelled)];
      return Done;
    }

    /** Only the job changes, never its target; what it received only grows, and a cancelled job stays cancelled. */
    method Update(id: Id, change: Change)
      modifies this
      ensures View() == UpdateTables(old(View()), id, change)
      ensures active == old(active) && cancel == old(cancel) && jobs.Keys == old(jobs).Keys && jobs - {id} == old(jobs) - {id}
      ensures id in jobs ==>
        var before := old(jobs)[id];
        && jobs[id].target == before.target && jobs[id].received >= before.received
        && (before.state == Cancelled ==> jobs[id].state == Cancelled)
      ensures cancelledContexts == old(cancelledContexts)
    {
      if id in jobs {
        jobs := jobs[id := Changed(jobs[id], change)];
      }
    }

    /** Nothing of the job is left in the index, if it was only under its own target, and all other entries stay. */
    method ClearActive(id: Id)
      modifies this
      ensures View() == ClearTables(old(View()), id)
      ensures jobs == old(jobs) && cancel == if id in jobs then old(cancel) - {id} else old(cancel)
      ensures forall p :: p in active ==> p in old(active) && active[p] == old(active)[p]
      ensures forall p :: p in old(active) && old(active)[p] != id ==> p in active
      ensures (forall p :: p in old(active) && old(active)[p] == id ==> id in jobs && jobs[id].target == p)
              ==> id !in active.Values
      ensures cancelledContexts == old(cancelledContexts)
    {
      if id !in jobs {
        return;
      }
      var target := jobs[id].target;
      if target in active && active[target] == id {
        active := active - {target};
      }
      cancel := cancel - {id};
    }

    /** `copyDownload`, run alone: `reads` is what the body yields, `writable` how many writes succeed. */
    method CopyDownload(id: Id, arrivals: seq<ReadResult>, writable: nat) returns (out: Bytes, ok: bool)
      requires exists i :: 0 <= i < |arrivals| && arrivals[i].end != More
      modifies this
      ensures View() == UpdateTables(old(View()), id, Progress(|out|))
      ensures out == Copied(arrivals, writable).0 && ok == Copied(arrivals, writable).1
    {
      hide UpdateTables;
      hide Copied;
      hide Changed;
      out := [];
      ghost var whole := Copied(arrivals, writable);
      var i, left := 0, writable;
      assert arrivals[i..] == arrivals;
      ProgressNone(View(), id);
      while i < |arrivals|
        invariant 0 <= i <= |arrivals| && 0 <= left <= writable
        invariant exists k :: i <= k < |arrivals| && arrivals[k].end != More
        invariant View() == UpdateTables(old(View()), id, Progress(|out|))
        invariant Copied(arrivals[i..], left).1 == whole.1 && out + Copied(arrivals[i..], left).0 == whole.0
      {
        var chunk, end := arrivals[i].chunk, arrivals[i].end;
        CopiedFirst(arrivals, i, left, out);
        if |chunk| > 0 {
          if left == 0 {
            return out, false;
          }
          left := left - 1;
          ProgressAdds(old(View()), id, |out|, |chunk|);
          out := out + chunk;
          Update(id, Progress(|chunk|));
        } else {
          assert out + chunk == out;
        }
        if end == Eof {
          return out, true;
        }
        if end.Error? {
          return out, false;
        }
        i := i + 1;
      }
    }
  }

  lemma ProgressNone(t: Tables, id: Id)
    ensures UpdateTables(t, id, Progress(0)) == t
  {
    if id in t.jobs { assert t.jobs[id := t.jobs[id]] == t.jobs; }
  }

  lemma ProgressAdds(t: Tables, id: Id, m: nat, n: nat)
    ensures UpdateTables(UpdateTables(t, id, Progress(m)), id, Progress(n)) == UpdateTables(t, id, Progress(m + n))
  {}

  /** The bytes written and counted when a body is copied, and whether the copy reached its end. */
  function Copied(arrivals: seq<ReadResult>, writable: nat): (Bytes, bool) {
    if arrivals == [] then ([], false)
    else
      var chunk, end := arrivals[0].chunk, arrivals[0].end;
      if |chunk| > 0 && writable == 0 then ([], false)
      else if end == Eof then (chunk, true)
      else if end.Error? then (chunk, false)
      else
        var (rest, ok) := Copied(arrivals[1..], if |chunk| > 0 then writable - 1 else writable);
        (chunk + rest, ok)
  }

  lemma CopiedFirst(arrivals: seq<ReadResult>, i: nat, writable: nat, out: Bytes)
    requires i < |arrivals|
    ensures var chunk, end := arrivals[i].chunk, arrivals[i].end;
            var left := if |chunk| > 0 && writable > 0 then writable - 1 else writable;
            var (bytes, ok) := Copied(arrivals[i..], writable);
            if |chunk| > 0 && writable == 0 then out + bytes == out && !ok
            else if end != More then out + bytes == out + chunk && ok == (end == Eof)
            else out + bytes == (out + chunk) + Copied(arrivals[i + 1..], left).0 && ok == Copied(arrivals[i + 1..], left).1
  {
    assert arrivals[i..][1..] == arrivals[i + 1..];
  }

  function Concat(arrivals: seq<ReadResult>): Bytes {
    if arrivals == [] then [] else arrivals[0].chunk + Concat(arrivals[1..])
  }

  lemma {:induction false} CopiedPrefix(arrivals: seq<ReadResult>, writable: nat)
    ensures Copied(arrivals, writable).0 <= Concat(arrivals)
  {
    if arrivals != [] {
      CopiedPrefix(arrivals[1..], if |arrivals[0].chunk| > 0 && writable > 0 then writable - 1 else writable);
    }
  }

  /** Where the body ended that a successful copy has read. */
  lemma {:induction false} CopiedUpTo(arrivals: seq<ReadResult>, writable: nat) returns (n: nat)
    requires Copied(arrivals, writable).1
    ensures 0 < n <= |arrivals| && arrivals[n - 1].end == Eof && Copied(arrivals, writable).0 == Concat(arrivals[..n])
  {
    var chunk := arrivals[0].chunk;
    if arrivals[0].end == Eof {
      n := 1;
      assert arrivals[..1][1..] == [];
      assert Concat(arrivals[..1]) == chunk + [];
    } else {
      var m := CopiedUpTo(arrivals[1..], if |chunk| > 0 then writable - 1 else writable);
      n := m + 1;
      assert arrivals[..n][1..] == arrivals[1..][..m];
    }
  }

  /** A copy that succeeds has written every chunk up to the end of the body; any copy has written a prefix. */
  lemma CopiedBody(arrivals: seq<ReadResult>, writable: nat)
    ensures Copied(arrivals, writable).0 <= Concat(arrivals)
    ensures Copied(arrivals, writable).1 ==>
      exists n :: 0 < n <= |arrivals| && arrivals[n - 1].end == Eof && Copied(arrivals, writable).0 == Concat(arrivals[..n])
  {
    hide Copied;
    hide Concat;
    CopiedPrefix(arrivals, writable);
    if Copied(arrivals, writable).1 { var _ := CopiedUpTo(arrivals, writable); }
  }
}
