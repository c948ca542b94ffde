/** Refreshing and restarting the router, and bringing back the presets that were active. */
module RouterRefresh {
  import opened Wrappers
  import opened ControlWorld
  import opened Sorting

  predicate ModelStateActive(state: string) {
    state == "loaded" || state == "loading" || state == "sleeping" || state == "downloading"
  }

  /** The state of each listed model; a later entry replaces an earlier one of the same name. */
  function StatesOf(models: seq<Model>): map<string, string> {
    if models == [] then map[]
    else StatesOf(models[..|models| - 1])[models[|models| - 1].id := models[|models| - 1].state]
  }

  function ActiveIds(models: seq<Model>): seq<string> {
    if models == [] then []
    else ActiveIds(models[..|models| - 1])
         + if ModelStateActive(models[|models| - 1].state) then [models[|models| - 1].id] else []
  }

  function ActiveNames(models: seq<Model>): seq<string> {
    SortNames(ActiveIds(models))
  }

  lemma {:induction false} ActiveIdsExact(models: seq<Model>, name: string)
    ensures name in ActiveIds(models) <==> exists m :: m in models && m.id == name && ModelStateActive(m.state)
    decreases |models|
  {
    if models != [] {
      var init, last := models[..|models| - 1], models[|models| - 1];
      ActiveIdsExact(init, name);
      assert models == init + [last];
    }
  }

  lemma ActiveNamesExact(models: seq<Model>, name: string)
    ensures name in ActiveNames(models) <==> exists m :: m in models && m.id == name && m.state in {"loaded", "sleeping", "loading", "downloading"}
  {
    ActiveIdsExact(models, name);
    SortNamesKeeps(ActiveIds(models), name);
    forall m | m in models ensures ModelStateActive(m.state) <==> m.state in {"loaded", "sleeping", "loading", "downloading"} {
      ActiveStates(m.state);
    }
    hide ModelStateActive;
  }

  lemma ActiveStates(state: string)
    ensures ModelStateActive(state) <==> state in {"loaded", "sleeping", "loading", "downloading"}
  {}

  /** A name has a state when it is listed, and of several entries the last one counts. */
  lemma {:induction false} StatesOfExact(models: seq<Model>, i: nat)
    ensures forall name :: name in StatesOf(models) <==> exists m :: m in models && m.id == name
    ensures i < |models| && (forall j :: i < j < |models| ==> models[j].id != models[i].id) ==> StatesOf(models)[models[i].id] == models[i].state
  {
    if models != [] {
      var init, last := models[..|models| - 1], models[|models| - 1];
      StatesOfExact(init, i);
      assert forall m :: m in models <==> m in init || m == last;
    }
  }

  /** `restoreActiveModels`: loads what was active and is not, going on after errors. */
  function Restore(w: World, e: Env, active: seq<string>, states: map<string, string>): (bool, World)
    decreases |active|
  {
    if active == [] then (true, w)
    else if active[0] !in states then (false, Restore(w, e, active[1..], states).1)
    else if ModelStateActive(states[active[0]]) then Restore(w, e, active[1..], states)
    else
      var (ok, w1) := Load(w, e, active[0]);
      var (rest, w2) := Restore(w1, e, active[1..], states);
      (ok && rest, w2)
  }

  datatype Done = Skipped | Refreshed | Restarted

  function Restart(w: World, e: Env, active: seq<string>): (Result<Done, Error>, World) {
    var (stopped, w1) := StopRouter(w, e);
    if !stopped then (Err(Failed), w1) else
    var (started, w2) := StartRouter(w1, e);
    if !started then (Err(Failed), w2) else
    var (models, w3) := ListModels(w2, e);
    if models.None? then (Err(Failed), w3) else
    var (ok, w4) := Restore(w3, e, active, StatesOf(models.value));
    (if ok then Ok(Restarted) else Err(Failed), w4)
  }

  /** The last part of a refresh: reload the sources, or restart if that fails. */
  function ReloadAndRestore(w: World, e: Env, active: seq<string>): (Result<Done, Error>, World) {
    var (refreshed, w3) := Reload(w, e);
    if refreshed.None? then Restart(w3, e, active) else
    var (ok, w4) := Restore(w3, e, active, StatesOf(refreshed.value));
    (if ok then Ok(Refreshed) else Err(Failed), w4)
  }

  function Refresh(w: World, e: Env): (Result<Done, Error>, World) {
    if !e.hasRouter then (Ok(Skipped), w) else
    var (status, w1) := Status(w, e);
    if status.None? then (Err(Failed), w1)
    else if status.value then (Ok(Skipped), w1) else
    var (models, w2) := ListModels(w1, e);
    if models.None? then Restart(w2, e, [])
    else ReloadAndRestore(w2, e, ActiveNames(models.value))
  }

  datatype RouterState = RouterState(running: bool, active: seq<string>)

  function Capture(w: World, e: Env): (RouterState, World) {
    if !e.hasRouter then (RouterState(false, []), w) else
    var (status, w1) := Status(w, e);
    if status.None? || status.value then (RouterState(false, []), w1) else
    var (models, w2) := ListModels(w1, e);
    (RouterState(true, if models.None? then [] else ActiveNames(models.value)), w2)
  }

  // ---------- what a restore achieves ----------

  /** Only calls to the router follow: the stores and the earlier log are as they were. */
  ghost predicate RouterOnly(w: World, n: World) {
    && n.presets == w.presets && n.refs == w.refs
    && w.log <= n.log
    && forall i :: |w.log| <= i < |n.log| ==> !n.log[i].Stored? && !n.log[i].FileDeleted?
  }

  /** The part of the log that `n` has beyond `w`. */
  ghost function Since(w: World, n: World): seq<Effect> {
    if |w.log| <= |n.log| then n.log[|w.log|..] else []
  }

  ghost predicate OnlyLoads(effects: seq<Effect>, active: seq<string>, states: map<string, string>) {
    forall x :: x in effects ==>
      x.LoadCalled? && x.name in active && x.name in states && !ModelStateActive(states[x.name])
  }

  /** The loads that a restore makes, and whether it succeeds. */
  ghost predicate LoadsFor(effects: seq<Effect>, active: seq<string>, states: map<string, string>, ok: bool) {
    && OnlyLoads(effects, active, states)
    && (forall a :: a in active && a in states && !ModelStateActive(states[a]) ==>
          LoadCalled(a, true) in effects || LoadCalled(a, false) in effects)
    && (ok <==> (forall a :: a in active ==> a in states) && forall x :: x in effects ==> x.ok)
  }

  lemma LoadsSkip(effects: seq<Effect>, active: seq<string>, states: map<string, string>, ok: bool)
    requires active != [] && LoadsFor(effects, active[1..], states, ok)
    requires active[0] !in states || ModelStateActive(states[active[0]])
    ensures LoadsFor(effects, active, states, ok && active[0] in states)
  {
    hide ModelStateActive;
    assert forall a :: a in active <==> a == active[0] || a in active[1..];
  }

  lemma LoadsMore(effects: seq<Effect>, active: seq<string>, states: map<string, string>, ok: bool, good: bool)
    requires active != [] && LoadsFor(effects, active[1..], states, ok)
    requires active[0] in states && !ModelStateActive(states[active[0]])
    ensures LoadsFor([LoadCalled(active[0], good)] + effects, active, states, good && ok)
  {
    hide ModelStateActive;
    assert forall a :: a in active <==> a == active[0] || a in active[1..];
    var x := LoadCalled(active[0], good);
    assert forall y :: y in [x] + effects <==> y == x || y in effects;
  }

  lemma {:induction false} RestoreLoads(w: World, e: Env, active: seq<string>, states: map<string, string>)
    ensures var (ok, n) := Restore(w, e, active, states);
            RouterOnly(w, n) && LoadsFor(Since(w, n), active, states, ok)
    decreases |active|
  {
    hide ModelStateActive;
    hide LoadsFor;
    var n := Restore(w, e, active, states).1;
    if active == [] {
      assert LoadsFor(Since(w, n), active, states, true) by { assert Since(w, n) == []; NoLoads(states); }
    } else if active[0] !in states || ModelStateActive(states[active[0]]) {
      RestoreLoads(w, e, active[1..], states);
      LoadsSkip(Since(w, n), active, states, Restore(w, e, active[1..], states).0);
    } else {
      var (good, w1) := Load(w, e, active[0]);
      RestoreLoads(w1, e, active[1..], states);
      assert Since(w, n) == [LoadCalled(active[0], good)] + Since(w1, n);
      LoadsMore(Since(w1, n), active, states, Restore(w1, e, active[1..], states).0, good);
    }
  }

  lemma NoLoads(states: map<string, string>)
    ensures LoadsFor([], [], states, true)
  {}

  /** It succeeds exactly when every name is listed and every load it needed went through;
      it loads the names that are listed and not active, and no other. */
  lemma RestoreExact(w: World, e: Env, active: seq<string>, states: map<string, string>)
    ensures var (ok, n) := Restore(w, e, active, states);
            && RouterOnly(w, n)
            && OnlyLoads(Since(w, n), active, states)
            && (forall a :: a in active && a in states && !ModelStateActive(states[a]) ==>
                  LoadCalled(a, true) in Since(w, n) || LoadCalled(a, false) in Since(w, n))
            && (ok <==> (forall a :: a in active ==> a in states) && forall x :: x in Since(w, n) ==> x.ok)
  {
    hide Restore;
    hide Since;
    hide RouterOnly;
    hide OnlyLoads;
    RestoreLoads(w, e, active, states);
  }

  /** The names that are listed and not active, in order. */
  function Missing(active: seq<string>, states: map<string, string>): seq<string> {
    if active == [] then []
    else (if active[0] in states && !ModelStateActive(states[active[0]]) then [active[0]] else []) + Missing(active[1..], states)
  }

  /** One load after the other, the first of them as call k. */
  function LoadsInTurn(e: Env, k: nat, names: seq<string>): seq<Effect>
    decreases |names|
  {
    if names == [] then [] else [LoadCalled(names[0], e.answer(k).ok)] + LoadsInTurn(e, k + 1, names[1..])
  }

  /** The loads are made once each, in the order of the names. */
  lemma {:induction false} RestoreInOrder(w: World, e: Env, active: seq<string>, states: map<string, string>)
    ensures var n := Restore(w, e, active, states).1;
            && n.log == w.log + LoadsInTurn(e, w.calls, Missing(active, states))
            && n.calls == w.calls + |Missing(active, states)|
    decreases |active|
  {
    hide ModelStateActive;
    if active != [] {
      var name := active[0];
      if name in states && !ModelStateActive(states[name]) {
        var w1 := Load(w, e, name).1;
        RestoreInOrder(w1, e, active[1..], states);
        assert Missing(active, states)[1..] == Missing(active[1..], states);
      } else {
        RestoreInOrder(w, e, active[1..], states);
        assert Missing(active, states) == Missing(active[1..], states);
      }
    }
  }

  /** Every name is active in the listing or was loaded without error, and nothing else was loaded. */
  ghost predicate Restored(effects: seq<Effect>, active: seq<string>, states: map<string, string>) {
    && (forall a :: a in active ==> a in states && (ModelStateActive(states[a]) || LoadCalled(a, true) in effects))
    && (forall x :: x in effects && x.LoadCalled? ==> x.name in active)
  }

  lemma RestoreSucceeds(w: World, e: Env, active: seq<string>, states: map<string, string>)
    requires Restore(w, e, active, states).0
    ensures var n := Restore(w, e, active, states).1;
            w.log <= n.log && Restored(Since(w, n), active, states)
  {
    RestoreExact(w, e, active, states);
  }

  /** Every load that was asked for went through. */
  ghost predicate AllLoaded(effects: seq<Effect>) {
    forall x :: x in effects && x.LoadCalled? ==> x.ok
  }

  ghost predicate AllListed(active: seq<string>, states: map<string, string>) {
    forall a :: a in active ==> a in states
  }

  /** The router is stopped and started, and after that only loads are asked for. */
  ghost predicate RestartedFrom(effects: seq<Effect>, at: nat) {
    && |effects| >= at + 2 && effects[at] == StopCalled(true) && effects[at + 1] == StartCalled(true)
    && forall i :: at + 2 <= i < |effects| ==> effects[i].LoadCalled?
  }

  /** The router's list is reloaded, and after that only loads are asked for. */
  ghost predicate ReloadedFirst(effects: seq<Effect>) {
    && effects != [] && effects[0] == ReloadCalled(true)
    && forall i :: 1 <= i < |effects| ==> effects[i].LoadCalled?
  }

  /** The world after the router was stopped, started and listed. */
  function RestartedWorld(w: World): World {
    w.(calls := w.calls + 3, log := w.log + [StopCalled(true), StartCalled(true)])
  }

  lemma RestartSteps(w: World, e: Env, active: seq<string>)
    ensures var (r, n) := Restart(w, e, active);
            if e.answer(w.calls).ok && e.answer(w.calls + 1).ok && e.answer(w.calls + 2).ok then
              var (ok, end) := Restore(RestartedWorld(w), e, active, StatesOf(e.answer(w.calls + 2).models));
              n == end && r == if ok then Ok(Restarted) else Err(Failed)
            else r == Err(Failed) && RouterOnly(w, n)
  {
    hide Restore;
    hide StatesOf;
    if e.answer(w.calls).ok && e.answer(w.calls + 1).ok && e.answer(w.calls + 2).ok {
      var w3 := ListModels(StartRouter(StopRouter(w, e).1, e).1, e).1;
      assert w3.log == RestartedWorld(w).log;
      assert w3 == RestartedWorld(w);
    }
  }

  lemma SinceAfter(w: World, mid: World, n: World, first: seq<Effect>)
    requires mid.log == w.log + first && mid.log <= n.log
    ensures Since(w, n) == first + Since(mid, n)
  {}

  lemma RouterOnlyAfter(w: World, mid: World, n: World, first: seq<Effect>)
    requires mid.presets == w.presets && mid.refs == w.refs && mid.log == w.log + first && RouterOnly(mid, n)
    requires forall x :: x in first ==> !x.Stored? && !x.FileDeleted?
    ensures RouterOnly(w, n) && mid.log <= n.log
  {
    forall i | |w.log| <= i < |n.log| ensures !n.log[i].Stored? && !n.log[i].FileDeleted? {
      if i < |mid.log| { assert n.log[i] == mid.log[i] == first[i - |w.log|]; }
    }
  }

  lemma RestartExact(w: World, e: Env, active: seq<string>)
    ensures var (r, n) := Restart(w, e, active);
            RouterOnly(w, n)
            && (r.Ok? ==> r == Ok(Restarted) && Restored(Since(w, n), active, StatesOf(e.answer(w.calls + 2).models)))
  {
    RestartSteps(w, e, active);
    hide Restart;
    hide Restore;
    hide StatesOf;
    hide RouterOnly;
    hide OnlyLoads;
    hide ModelStateActive;
    hide Restored;
    if e.answer(w.calls).ok && e.answer(w.calls + 1).ok && e.answer(w.calls + 2).ok {
      var first := [StopCalled(true), StartCalled(true)];
      var w3 := RestartedWorld(w);
      var states := StatesOf(e.answer(w.calls + 2).models);
      RestoreExact(w3, e, active, states);
      var (ok, n) := Restore(w3, e, active, states);
      RouterOnlyAfter(w, w3, n, first);
      SinceAfter(w, w3, n, first);
      if ok {
        RestoreSucceeds(w3, e, active, states);
        RestoredAfter(first, Since(w3, n), active, states);
      }
    }
  }

  lemma RestoredAfter(first: seq<Effect>, effects: seq<Effect>, active: seq<string>, states: map<string, string>)
    requires Restored(effects, active, states) && forall x :: x in first ==> !x.LoadCalled?
    ensures Restored(first + effects, active, states)
  {
    hide ModelStateActive;
    assert forall x :: x in first + effects <==> x in first || x in effects;
  }

  /** A restart succeeds exactly when the three calls do, every name is listed afterwards and every load goes through. */
  lemma RestartSucceeds(w: World, e: Env, active: seq<string>)
    ensures var (r, n) := Restart(w, e, active);
            && (r.Ok? <==>
                  && e.answer(w.calls).ok && e.answer(w.calls + 1).ok && e.answer(w.calls + 2).ok
                  && AllListed(active, StatesOf(e.answer(w.calls + 2).models)) && AllLoaded(Since(w, n)))
            && (r.Ok? ==> RestartedFrom(Since(w, n), 0))
  {
    RestartSteps(w, e, active);
    hide Restart;
    hide Restore;
    hide StatesOf;
    hide RouterOnly;
    hide ModelStateActive;
    hide OnlyLoads;
    if e.answer(w.calls).ok && e.answer(w.calls + 1).ok && e.answer(w.calls + 2).ok {
      var first := [StopCalled(true), StartCalled(true)];
      var w3 := RestartedWorld(w);
      var states := StatesOf(e.answer(w.calls + 2).models);
      RestoreExact(w3, e, active, states);
      var n := Restore(w3, e, active, states).1;
      RouterOnlyAfter(w, w3, n, first);
      SinceAfter(w, w3, n, first);
      LoadsAfter(first, Since(w3, n), active, states);
      hide AllLoaded;
    }
  }

  lemma LoadsAfter(first: seq<Effect>, loads: seq<Effect>, active: seq<string>, states: map<string, string>)
    requires OnlyLoads(loads, active, states) && forall x :: x in first ==> !x.LoadCalled?
    ensures AllLoaded(first + loads) <==> forall x :: x in loads ==> x.ok
    ensures forall i :: |first| <= i < |first + loads| ==> (first + loads)[i].LoadCalled?
  {
    hide ModelStateActive;
    assert forall x :: x in first + loads <==> x in first || x in loads;
    forall i | |first| <= i < |first + loads| ensures (first + loads)[i].LoadCalled? {
      assert (first + loads)[i] in loads;
    }
  }

  /** The listing the router ends with: what Reload returned, or the list after a restart. */
  function ListingAfter(w: World, e: Env): seq<Model> {
    if e.answer(w.calls + 2).ok then e.answer(w.calls + 2).models else e.answer(w.calls + 5).models
  }

  /** A successful refresh of a running, listed router leaves every active preset active or loaded,
      and loads no other. A stopped or missing router is not touched. */
  lemma RefreshExact(w: World, e: Env)
    ensures var (r, n) := Refresh(w, e);
            && RouterOnly(w, n)
            && (!e.hasRouter || (e.answer(w.calls).ok && e.answer(w.calls).stopped) ==> r == Ok(Skipped))
            && (r == Ok(Skipped) || (e.hasRouter && !e.answer(w.calls).ok) ==> n.log == w.log)
            && (r.Ok? && r != Ok(Skipped) && e.answer(w.calls + 1).ok ==>
                  Restored(Since(w, n), ActiveNames(e.answer(w.calls + 1).models), StatesOf(ListingAfter(w, e))))
  {
    hide Restart;
    hide ReloadAndRestore;
    hide Restored;
    hide ActiveNames;
    hide StatesOf;
    if e.hasRouter && e.answer(w.calls).ok && !e.answer(w.calls).stopped {
      var w2 := ListModels(Status(w, e).1, e).1;
      if e.answer(w.calls + 1).ok {
        ReloadExact(w2, e, ActiveNames(e.answer(w.calls + 1).models));
      } else {
        RestartExact(w2, e, []);
      }
    }
  }

  lemma ReloadExact(w: World, e: Env, active: seq<string>)
    ensures var (r, n) := ReloadAndRestore(w, e, active);
            var listing := if e.answer(w.calls).ok then e.answer(w.calls).models else e.answer(w.calls + 3).models;
            RouterOnly(w, n)
            && (r.Ok? ==> r != Ok(Skipped) && Restored(Since(w, n), active, StatesOf(listing)))
  {
    hide Restart;
    hide Restore;
    hide StatesOf;
    var w3 := Reload(w, e).1;
    var (r, n) := ReloadAndRestore(w, e, active);
    RestartExact(w3, e, active);
    RestoreExact(w3, e, active, StatesOf(e.answer(w.calls).models));
    assert Since(w, n) == [ReloadCalled(e.answer(w.calls).ok)] + Since(w3, n);
    if r.Ok? && e.answer(w.calls).ok {
      RestoreSucceeds(w3, e, active, StatesOf(e.answer(w.calls).models));
    }
  }

  lemma ReloadSucceeds(w: World, e: Env, active: seq<string>)
    requires e.answer(w.calls).ok
    ensures var (r, n) := ReloadAndRestore(w, e, active);
            && (r == Ok(Refreshed) <==> AllListed(active, StatesOf(e.answer(w.calls).models)) && AllLoaded(Since(w, n)))
            && (r.Ok? ==> r == Ok(Refreshed) && ReloadedFirst(Since(w, n)))
  {
    var w3 := Reload(w, e).1;
    var states := StatesOf(e.answer(w.calls).models);
    var (ok, n) := Restore(w3, e, active, states);
    RestoreExact(w3, e, active, states);
    hide Restore;
    hide StatesOf;
    hide ModelStateActive;
    hide Restart;
    assert ReloadAndRestore(w, e, active).1 == n;
    assert Since(w, n) == [ReloadCalled(true)] + Since(w3, n);
    LoadsAfter([ReloadCalled(true)], Since(w3, n), active, states);
  }

  /** The router answers, from call k on, that it is running. */
  ghost predicate Running(e: Env, k: nat) {
    e.hasRouter && e.answer(k).ok && !e.answer(k).stopped
  }

  /** The router could be listed and reloaded, and every preset that was active is listed and loads. */
  ghost predicate Reloads(e: Env, k: nat, effects: seq<Effect>) {
    && Running(e, k) && e.answer(k + 1).ok && e.answer(k + 2).ok
    && AllListed(ActiveNames(e.answer(k + 1).models), StatesOf(e.answer(k + 2).models)) && AllLoaded(effects)
  }

  /** The router could not be listed, and restarts: nothing is brought back. */
  ghost predicate RestartsBlind(e: Env, k: nat) {
    Running(e, k) && !e.answer(k + 1).ok && e.answer(k + 2).ok && e.answer(k + 3).ok && e.answer(k + 4).ok
  }

  /** The router could be listed but not reloaded; it restarts, and every preset that was active is listed and loads. */
  ghost predicate RestartsActive(e: Env, k: nat, effects: seq<Effect>) {
    && Running(e, k) && e.answer(k + 1).ok && !e.answer(k + 2).ok
    && e.answer(k + 3).ok && e.answer(k + 4).ok && e.answer(k + 5).ok
    && AllListed(ActiveNames(e.answer(k + 1).models), StatesOf(e.answer(k + 5).models)) && AllLoaded(effects)
  }

  lemma BlindSucceeds(w: World, e: Env)
    requires Running(e, w.calls) && !e.answer(w.calls + 1).ok
    ensures var (r, n) := Refresh(w, e);
            && (r.Ok? <==> RestartsBlind(e, w.calls)) && (r.Ok? ==> r == Ok(Restarted) && RestartedFrom(Since(w, n), 0))
  {
    var w2 := ListModels(Status(w, e).1, e).1;
    RestartSucceeds(w2, e, []);
    RestartExact(w2, e, []);
    NothingLoaded(w2, e);
    hide Restart;
    hide StatesOf;
  }

  lemma NothingLoaded(w: World, e: Env)
    ensures AllLoaded(Since(w, Restart(w, e, []).1))
  {
    hide StatesOf;
    var n := Restart(w, e, []).1;
    var stop, start := StopCalled(e.answer(w.calls).ok), StartCalled(e.answer(w.calls + 1).ok);
    assert Since(w, n) == if e.answer(w.calls).ok then [stop, start] else [stop];
  }

  /** The world after the router was listed and could not be reloaded. */
  function NotReloaded(w: World): World {
    w.(calls := w.calls + 3, log := w.log + [ReloadCalled(false)])
  }

  lemma ReloadFailsTo(w: World, e: Env)
    requires Running(e, w.calls) && e.answer(w.calls + 1).ok && !e.answer(w.calls + 2).ok
    ensures Refresh(w, e) == Restart(NotReloaded(w), e, ActiveNames(e.answer(w.calls + 1).models))
    ensures NotReloaded(w).calls == w.calls + 3 && NotReloaded(w).log == w.log + [ReloadCalled(false)]
  {
    hide Restart;
    hide ActiveNames;
  }

  lemma ReloadFails(w: World, e: Env)
    requires Running(e, w.calls) && e.answer(w.calls + 1).ok && !e.answer(w.calls + 2).ok
    ensures var (r, n) := Refresh(w, e);
            && (r.Ok? <==> RestartsActive(e, w.calls, Since(w, n))) && (r.Ok? ==> r == Ok(Restarted) && RestartedFrom(Since(w, n), 1))
  {
    var active := ActiveNames(e.answer(w.calls + 1).models);
    var w3 := NotReloaded(w);
    var n := Restart(w3, e, active).1;
    ReloadFailsTo(w, e);
    RestartSucceeds(w3, e, active);
    RestartExact(w3, e, active);
    RouterOnlyGrows(w3, n);
    hide *;
    SinceAfter(w, w3, n, [ReloadCalled(false)]);
    LaterEffects(ReloadCalled(false), Since(w3, n));
    RestartsActiveParts(e, w.calls, Since(w, n));
  }

  lemma RouterOnlyGrows(w: World, n: World)
    requires RouterOnly(w, n)
    ensures w.log <= n.log
  {}

  lemma RestartsActiveParts(e: Env, k: nat, effects: seq<Effect>)
    requires Running(e, k) && e.answer(k + 1).ok && !e.answer(k + 2).ok
    ensures RestartsActive(e, k, effects) <==>
              && e.answer(k + 3).ok && e.answer(k + 3 + 1).ok && e.answer(k + 3 + 2).ok
              && AllListed(ActiveNames(e.answer(k + 1).models), StatesOf(e.answer(k + 3 + 2).models)) && AllLoaded(effects)
  {
    hide AllListed;
    hide AllLoaded;
    hide ActiveNames;
    hide StatesOf;
  }

  lemma LaterEffects(first: Effect, rest: seq<Effect>)
    requires !first.LoadCalled?
    ensures AllLoaded([first] + rest) <==> AllLoaded(rest)
    ensures RestartedFrom(rest, 0) ==> RestartedFrom([first] + rest, 1)
  {
    assert forall x :: x in [first] + rest <==> x == first || x in rest;
  }

  /** When a refresh has nothing to do, when it reloads, and when it restarts the router. */
  lemma RefreshSucceeds(w: World, e: Env)
    ensures var (r, n) := Refresh(w, e);
            && (r == Ok(Skipped) <==> !e.hasRouter || (e.answer(w.calls).ok && e.answer(w.calls).stopped))
            && (r == Ok(Refreshed) <==> Reloads(e, w.calls, Since(w, n)))
            && (r == Ok(Restarted) <==> RestartsBlind(e, w.calls) || RestartsActive(e, w.calls, Since(w, n)))
            && (r == Ok(Refreshed) ==> ReloadedFirst(Since(w, n)))
            && (r == Ok(Restarted) ==> RestartedFrom(Since(w, n), if e.answer(w.calls + 1).ok then 1 else 0))
  {
    if Running(e, w.calls) {
      if !e.answer(w.calls + 1).ok {
        BlindSucceeds(w, e);
      } else if e.answer(w.calls + 2).ok {
        ReloadSucceeds(ListModels(Status(w, e).1, e).1, e, ActiveNames(e.answer(w.calls + 1).models));
        RefreshReloads(w, e);
      } else {
        ReloadFails(w, e);
      }
      hide Refresh;
    }
    hide ActiveNames;
    hide StatesOf;
    hide AllListed;
    hide AllLoaded;
    hide ReloadedFirst;
    hide RestartedFrom;
  }

  lemma RefreshReloads(w: World, e: Env)
    requires Running(e, w.calls) && e.answer(w.calls + 1).ok
    ensures var w2 := ListModels(Status(w, e).1, e).1;
            Refresh(w, e) == ReloadAndRestore(w2, e, ActiveNames(e.answer(w.calls + 1).models)) && w2.log == w.log && w2.calls == w.calls + 2
  {
    hide ReloadAndRestore;
    hide ActiveNames;
  }

  lemma CaptureExact(w: World, e: Env)
    ensures var (previous, n) := Capture(w, e);
            && n.presets == w.presets && n.refs == w.refs && n.log == w.log
            && (previous.running <==> e.hasRouter && e.answer(w.calls).ok && !e.answer(w.calls).stopped)
            && (previous.running && e.answer(w.calls + 1).ok ==>
                  previous.active == ActiveNames(e.answer(w.calls + 1).models))
  {}
}
