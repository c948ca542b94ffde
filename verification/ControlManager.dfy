/** The control manager as an object: what each mutation keeps and achieves in the stores and at the router. */
module ControlManager {
  import opened Wrappers
  import opened ControlWorld
  import opened RouterRefresh
  import opened PresetOps
  import opened PresetOutcomes
  import opened ConfigLists
  import opened Sorting
  import PresetFile
  import PresetStore

  class Manager {
    const e: Env
    var presets: Option<Presets>
    var refs: Refs
    var calls: nat
    var log: seq<Effect>

    constructor (e: Env, w: World)
      ensures this.e == e && View() == w
    {
      this.e := e;
      presets, refs, calls, log := w.presets, w.refs, w.calls, w.log;
    }

    ghost function View(): World
      reads this
    {
      World(presets, refs, calls, log)
    }

    // ---------- outside calls ----------

    method Ask() returns (a: Answer)
      modifies this`calls
      ensures a == e.answer(old(calls)) && View() == Tick(old(View()))
    {
      a := e.answer(calls);
      calls := calls + 1;
    }

    method CallStatus() returns (stopped: Option<bool>)
      modifies this`calls
      ensures (stopped, View()) == Status(old(View()), e)
    {
      var a := Ask();
      stopped := if a.ok then Some(a.stopped) else None;
    }

    method CallList() returns (models: Option<seq<Model>>)
      modifies this`calls
      ensures (models, View()) == ListModels(old(View()), e)
    {
      var a := Ask();
      models := if a.ok then Some(a.models) else None;
    }

    method CallReload() returns (models: Option<seq<Model>>)
      modifies this`calls, this`log
      ensures (models, View()) == Reload(old(View()), e)
    {
      var a := Ask();
      log := log + [ReloadCalled(a.ok)];
      models := if a.ok then Some(a.models) else None;
    }

    method CallLoad(name: string) returns (ok: bool)
      modifies this`calls, this`log
      ensures (ok, View()) == Load(old(View()), e, name)
    {
      var a := Ask();
      log := log + [LoadCalled(name, a.ok)];
      ok := a.ok;
    }

    method CallStop() returns (ok: bool)
      modifies this`calls, this`log
      ensures (ok, View()) == StopRouter(old(View()), e)
    {
      var a := Ask();
      log := log + [StopCalled(a.ok)];
      ok := a.ok;
    }

    method CallStart() returns (ok: bool)
      modifies this`calls, this`log
      ensures (ok, View()) == StartRouter(old(View()), e)
    {
      var a := Ask();
      log := log + [StartCalled(a.ok)];
      ok := a.ok;
    }

    method CallGet(name: string) returns (r: Result<PresetFile.Values, Error>)
      modifies this`calls
      ensures (r, View()) == StoreGet(old(View()), e, name)
    {
      var a := Ask();
      r := if a.disk.readFails then Err(Failed)
           else if presets.None? then Err(Invalid)
           else if name in presets.value then Ok(presets.value[name])
           else Err(NotFound);
    }

    method CallListPresets() returns (r: Result<Presets, Error>)
      modifies this`calls
      ensures (r, View()) == StoreList(old(View()), e)
    {
      var a := Ask();
      r := if a.disk.readFails then Err(Failed) else if presets.None? then Err(Invalid) else Ok(presets.value - {"*"});
    }

    method CallPut(name: string, values: PresetFile.Values, createOnly: bool) returns (error: Option<Error>)
      modifies this`calls, this`log, this`presets
      ensures (error, View()) == StorePut(old(View()), e, name, values, createOnly)
    {
      var a := Ask();
      var (next, err) := PresetStore.ApplyState(presets, PresetStore.Op.Put(name, values, createOnly, a.disk));
      presets := next;
      log := log + [Effect.Stored(presets, refs)];
      error := MapError(err);
    }

    method CallDelete(name: string) returns (error: Option<Error>)
      modifies this`calls, this`log, this`presets
      ensures (error, View()) == StoreDelete(old(View()), e, name)
    {
      var a := Ask();
      var (next, err) := PresetStore.ApplyState(presets, PresetStore.Op.Delete(name, a.disk));
      presets := next;
      log := log + [Effect.Stored(presets, refs)];
      error := MapError(err);
    }

    // ---------- the router ----------

    method ActiveModelNames(models: seq<Model>) returns (names: seq<string>)
      ensures names == ActiveNames(models)
    {
      names := [];
      for i := 0 to |models|
        invariant names == ActiveIds(models[..i])
      {
        var init := models[..i + 1];
        assert init[..i] == models[..i];
        if ModelStateActive(models[i].state) {
          names := names + [models[i].id];
        }
      }
      assert models[..|models|] == models;
      names := SortNames(names);
    }

    method RestoreActiveModels(active: seq<string>, models: seq<Model>) returns (ok: bool)
      modifies this`calls, this`log
      ensures (ok, View()) == Restore(old(View()), e, active, StatesOf(models))
    {
      var states: map<string, string> := map[];
      for i := 0 to |models|
        invariant states == StatesOf(models[..i])
      {
        assert models[..i + 1][..i] == models[..i];
        states := states[models[i].id := models[i].state];
      }
      assert models[..|models|] == models;
      ok := true;
      var i := 0;
      assert active[0..] == active;
      while i < |active|
        invariant 0 <= i <= |active|
        invariant var (rest, n) := Restore(View(), e, active[i..], states);
                  Restore(old(View()), e, active, states) == (ok && rest, n)
      {
        var name := active[i];
        assert active[i..][1..] == active[i + 1..];
        i := i + 1;
        if name !in states {
          ok := false;
          continue;
        }
        if ModelStateActive(states[name]) {
          continue;
        }
        var loaded := CallLoad(name);
        if !loaded {
          ok := false;
        }
      }
    }

    method RestartRouterSources(active: seq<string>) returns (r: Result<Done, Error>)
      modifies this`calls, this`log
      ensures (r, View()) == Restart(old(View()), e, active)
      ensures RouterOnly(old(View()), View())
      ensures r.Ok? ==> Restored(Since(old(View()), View()), active, StatesOf(e.answer(old(calls) + 2).models))
    {
      hide Restored;
      hide RouterOnly;
      RestartExact(View(), e, active);
      var stopped := CallStop();
      if !stopped {
        return Err(Failed);
      }
      var started := CallStart();
      if !started {
        return Err(Failed);
      }
      var models := CallList();
      if models.None? {
        return Err(Failed);
      }
      var ok := RestoreActiveModels(active, models.value);
      r := if ok then Ok(Restarted) else Err(Failed);
    }

    method RefreshRouterSources() returns (r: Result<Done, Error>)
      modifies this`calls, this`log
      ensures (r, View()) == Refresh(old(View()), e)
      ensures RouterOnly(old(View()), View())
      ensures !e.hasRouter || (e.answer(old(calls)).ok && e.answer(old(calls)).stopped) ==> r == Ok(Skipped) && log == old(log)
      ensures r.Ok? && r != Ok(Skipped) && e.answer(old(calls) + 1).ok ==>
        Restored(Since(old(View()), View()), ActiveNames(e.answer(old(calls) + 1).models), StatesOf(ListingAfter(old(View()), e)))
    {
      hide Restored;
      hide RouterOnly;
      RefreshExact(View(), e);
      if !e.hasRouter {
        return Ok(Skipped);
      }
      var status := CallStatus();
      if status.None? {
        return Err(Failed);
      }
      if status.value {
        return Ok(Skipped);
      }
      var models := CallList();
      if models.None? {
        r := RestartRouterSources([]);
        return;
      }
      var active := ActiveModelNames(models.value);
      var refreshed := CallReload();
      if refreshed.None? {
        r := RestartRouterSources(active);
        return;
      }
      var ok := RestoreActiveModels(active, refreshed.value);
      r := if ok then Ok(Refreshed) else Err(Failed);
    }

    method CaptureRouterState() returns (state: RouterState)
      modifies this`calls
      ensures (state, View()) == Capture(old(View()), e)
      ensures state.running <==> e.hasRouter && e.answer(old(calls)).ok && !e.answer(old(calls)).stopped
      ensures state.running && e.answer(old(calls) + 1).ok ==>
        forall n :: n in state.active <==>
          exists m :: m in e.answer(old(calls) + 1).models && m.id == n && m.state in {"loaded", "sleeping", "loading", "downloading"}
    {
      if !e.hasRouter {
        return RouterState(false, []);
      }
      var status := CallStatus();
      if status.None? || status.value {
        return RouterState(false, []);
      }
      var models := CallList();
      if models.None? {
        return RouterState(true, []);
      }
      var active := ActiveModelNames(models.value);
      forall n ensures n in active <==>
        exists m :: m in models.value && m.id == n && m.state in {"loaded", "sleeping", "loading", "downloading"}
      {
        ActiveNamesExact(models.value, n);
      }
      return RouterState(true, active);
    }

    method IsModelRunning(name: string) returns (r: Result<bool, Error>)
      modifies this`calls
      ensures (r, View()) == ModelRunning(old(View()), e, name)
      ensures r == Ok(true) <==> Active(e, old(calls), name)
      ensures r == Ok(false) <==> Inactive(e, old(calls), name)
    {
      RunningExact(View(), e, name);
      hide Active;
      hide Inactive;
      if !e.hasRouter {
        return Ok(false);
      }
      var status := CallStatus();
      if status.None? {
        return Err(Failed);
      }
      if status.value {
        return Ok(false);
      }
      var models := CallList();
      if models.None? {
        return Err(Failed);
      }
      for i := 0 to |models.value|
        invariant forall j :: 0 <= j < i ==> !(models.value[j].id == name && ModelStateActive(models.value[j].state))
      {
        if models.value[i].id == name && ModelStateActive(models.value[i].state) {
          assert models.value[i] in models.value;
          return Ok(true);
        }
      }
      return Ok(false);
    }

    // ---------- presets ----------

    method RollbackPresetCreation(name: string, previous: RouterState) returns (error: Error)
      modifies this`calls, this`log, this`presets
      ensures (error, View()) == Rollback(old(View()), e, name, previous)
      ensures presets == if StoreDelete(old(View()), e, name).0.None? then Minus(old(presets), {name}) else old(presets)
      ensures Safe(old(View())) && !Referenced(refs, name) ==> Safe(View())
    {
      hide StoreDelete;
      hide Restart;
      hide Safe;
      StoreDeleteExact(View(), e, name);
      if Safe(View()) && !Referenced(refs, name) { RollbackKeeps(View(), e, name, previous); }
      RestartExact(StoreDelete(View(), e, name).1, e, previous.active);
      var failed := CallDelete(name);
      if failed.Some? {
        return Failed;
      }
      if previous.running {
        var _ := RestartRouterSources(previous.active);
      }
      return Failed;
    }

    method Put(name: string, values: PresetFile.Values, createOnly: bool) returns (r: Result<PresetFile.Values, Error>)
      modifies this`calls, this`log, this`presets
      ensures (r, View()) == PutPreset(old(View()), e, name, values, createOnly)
      ensures Safe(old(View())) ==> (Safe(View()) <==> !Breaks(old(View()), e, name, values, createOnly))
      ensures e.hasPresets && createOnly && r.Err? ==> (presets == old(presets) <==> CreationUndone(old(View()), e, name, values))
      ensures r.Ok? ==> Has(presets, name) && presets.value[name] == r.value
      ensures Saved(old(View()), e, name, values, createOnly, r, View())
    {
      PutPresetSeen(View(), e, name, values, createOnly);
      hide Saved;
      hide Safe;
      hide Breaks;
      hide CreationUndone;
      hide StorePut;
      hide Refresh;
      hide Rollback;
      hide Capture;
      hide Restart;
      hide StoreDelete;
      if Safe(View()) { PutPresetKeeps(View(), e, name, values, createOnly); }
      if e.hasPresets && createOnly { PutRollsBack(View(), e, name, values); }
      PutPresetReturns(View(), e, name, values, createOnly);
      if !e.hasPresets {
        return Err(Invalid);
      }
      var previous := RouterState(false, []);
      if createOnly {
        previous := CaptureRouterState();
      }
      var error := CallPut(name, values, createOnly);
      if error.Some? {
        return Err(error.value);
      }
      r := CallGet(name);
      if r.Err? {
        return;
      }
      var refreshed := RefreshRouterSources();
      if refreshed.Err? {
        if createOnly {
          var reverted := RollbackPresetCreation(name, previous);
          return Err(reverted);
        }
        return Err(Failed);
      }
    }

    method IsDeletable(name: string) returns (r: Result<bool, Error>)
      modifies this`calls
      ensures (r, View()) == Deletable(old(View()), e, name)
      ensures r == Ok(true) <==> Reads(e, old(calls)) && Has(presets, name) && !Referenced(refs, name) && Inactive(e, old(calls) + 1, name)
      ensures r == Ok(false) <==> Reads(e, old(calls)) && presets.Some? && !Has(presets, name)
      ensures r == Err(Conflict) <==>
        Reads(e, old(calls)) && Has(presets, name) && (Referenced(refs, name) || Active(e, old(calls) + 1, name))
    {
      DeletableSucceeds(View(), e, name);
      hide Active;
      hide Inactive;
      var got := CallGet(name);
      if got == Err(NotFound) {
        return Ok(false);
      }
      if got.Err? {
        return Err(got.error);
      }
      if name == refs.defaultPreset || name in refs.autostart {
        return Err(Conflict);
      }
      var running := IsModelRunning(name);
      if running.Err? {
        return Err(running.error);
      }
      if running.value {
        return Err(Conflict);
      }
      return Ok(true);
    }

    method Delete(name: string) returns (error: Option<Error>)
      modifies this`calls, this`log, this`presets
      ensures (error, View()) == DeletePreset(old(View()), e, name)
      ensures Safe(old(View())) ==> Safe(View())
      ensures presets == old(presets) || (presets == Minus(old(presets), {name}) && !Referenced(refs, name))
      ensures error.None? ==> presets == Minus(old(presets), {name}) && presets.Some?
      ensures Has(old(presets), name) ==> (!Has(presets, name) <==> DeleteGoes(old(View()), e, name))
    {
      hide Safe;
      hide Deletable;
      hide DeleteAndRefresh;
      hide DeleteGoes;
      if Safe(View()) { DeletePresetKeeps(View(), e, name); }
      DeletePresetExact(View(), e, name);
      if Has(presets, name) { DeletePresetSucceeds(View(), e, name); }
      if !e.hasPresets {
        return Some(Invalid);
      }
      var deletable := IsDeletable(name);
      if deletable.Err? {
        return Some(deletable.error);
      }
      if !deletable.value {
        return None;
      }
      error := DeleteThenRefresh(name);
    }

    method DeleteThenRefresh(name: string) returns (error: Option<Error>)
      modifies this`calls, this`log, this`presets
      ensures (error, View()) == DeleteAndRefresh(old(View()), e, name)
      ensures presets == old(presets) || presets == Minus(old(presets), {name})
      ensures error.None? ==> presets == Minus(old(presets), {name}) && presets.Some?
    {
      hide StoreDelete;
      hide Refresh;
      DeleteAndRefreshExact(View(), e, name);
      error := CallDelete(name);
      if error.Some? {
        return;
      }
      var refreshed := RefreshRouterSources();
      if refreshed.Err? {
        return Some(Failed);
      }
    }

    method RemovePresetReferences(names: set<string>) returns (error: Option<Error>)
      modifies this`calls, this`log, this`refs
      ensures (error, View()) == RemoveReferences(old(View()), e, names)
      ensures refs == if error.None? then Cleaned(old(refs), names) else old(refs)
      ensures error.None? <==> Clearable(old(View()), e, old(calls), names)
      ensures error.None? ==> forall x :: x in names && x != "" ==> !Referenced(refs, x)
      ensures Safe(old(View())) ==> Safe(View())
    {
      hide Safe;
      RemoveReferencesExact(View(), e, names);
      ClearSucceeds(View(), e, names);
      if Safe(View()) { RemoveReferencesKeeps(View(), e, names); }
      if !e.hasConfig {
        if exists n :: n in names && Referenced(refs, n) {
          return Some(Invalid);
        }
        return None;
      }
      var a := Ask();
      if a.ok {
        refs := Refs(if refs.defaultPreset in names then "" else refs.defaultPreset, Without(refs.autostart, names));
      }
      log := log + [Effect.Stored(presets, refs)];
      return if a.ok then None else Some(Failed);
    }

    method IsUnavailable(name: string) returns (error: Option<Error>)
      modifies this`calls
      ensures (error, View()) == RequireUnavailable(old(View()), e, name)
      ensures error.None? <==>
        Has(presets, name) && Reads(e, old(calls)) && !e.ready(presets.value[name]) && Inactive(e, old(calls) + 1, name)
    {
      UnavailableExact(View(), e, name);
      if Has(presets, name) { UnavailableSucceeds(View(), e, name); }
      hide Inactive;
      hide Active;
      var preset := CallGet(name);
      if preset.Err? {
        return Some(preset.error);
      }
      if e.ready(preset.value) {
        return Some(Conflict);
      }
      var running := IsModelRunning(name);
      if running.Err? {
        return Some(running.error);
      }
      return if running.value then Some(Conflict) else None;
    }

    method Cleanup(name: string) returns (error: Option<Error>)
      modifies this`calls, this`log, this`refs, this`presets
      ensures (error, View()) == CleanupPreset(old(View()), e, name)
      ensures Safe(old(View())) ==> Safe(View())
      ensures CleanedUp(old(View()), e, name, error, View())
    {
      hide CleanedUp;
      CleanupSeen(View(), e, name);
      hide Safe;
      hide Cleaned;
      hide RequireUnavailable;
      hide RemoveReferences;
      hide DeleteAndRefresh;
      if Safe(View()) { CleanupPresetKeeps(View(), e, name); }
      if !e.hasPresets {
        return Some(Invalid);
      }
      if name == "" {
        return Some(Invalid);
      }
      var got := CallGet(name);
      if got.Err? && got != Err(NotFound) {
        return Some(got.error);
      }
      var found := got.Ok?;
      if found {
        error := IsUnavailable(name);
        if error.Some? {
          return;
        }
      }
      error := RemovePresetReferences({name});
      if error.Some? || !found {
        return;
      }
      error := DeleteThenRefresh(name);
    }

    method SetPresetAutostart(name: string, enabled: bool) returns (error: Option<Error>)
      modifies this`calls, this`log, this`refs
      ensures (error, View()) == SetAutostart(old(View()), e, name, enabled)
      ensures Safe(old(View())) ==> Safe(View())
      ensures refs.defaultPreset == old(refs).defaultPreset && (error.Some? ==> refs == old(refs))
      ensures error.None? && enabled ==> Has(presets, name) && refs.autostart == AppendIfAbsent(old(refs).autostart, name)
      ensures error.None? && !enabled ==> refs.autostart == Without(old(refs).autostart, {name})
      ensures refs == old(refs) || |refs.autostart| <= e.modelsMax
      ensures enabled && e.hasConfig && e.hasPresets && Reads(e, old(calls)) && Has(presets, name) && e.answer(old(calls) + 1).ok ==>
        (error.None? <==> name in old(refs).autostart || |old(refs).autostart| < e.modelsMax)
    {
      AutostartSucceeds(View(), e, name, enabled);
      hide Safe;
      hide AppendIfAbsent;
      hide Without;
      if Safe(View()) { SetAutostartKeeps(View(), e, name, enabled); }
      SetAutostartExact(View(), e, name, enabled);
      if !e.hasConfig {
        return Some(Invalid);
      }
      if enabled {
        if !e.hasPresets {
          return Some(Invalid);
        }
        var got := CallGet(name);
        if got.Err? {
          return Some(got.error);
        }
      }
      var names := if enabled then AppendIfAbsent(refs.autostart, name) else Without(refs.autostart, {name});
      var a := Ask();
      if !a.ok {
        error := Some(Failed);
      } else if names != refs.autostart && |names| > e.modelsMax {
        error := Some(Conflict);
      } else {
        refs := refs.(autostart := names);
        error := None;
      }
      log := log + [Effect.Stored(presets, refs)];
    }

    // ---------- local models ----------

    method ValidateModelCascade(models: set<string>, dirs: set<string>, cascade: bool) returns (error: Option<Error>)
      modifies this`calls
      ensures (error, View()) == ValidateCascade(old(View()), e, models, dirs, cascade)
      ensures error.None? <==> NothingActive(e, old(calls), models + dirs) && (models == {} || cascade)
    {
      hide NothingActive;
      CascadeExact(View(), e, models, dirs, cascade);
      if models != {} && !cascade {
        return Some(Conflict);
      }
      if models + dirs == {} || !e.hasRouter {
        return None;
      }
      var status := CallStatus();
      if status.None? {
        return Some(Failed);
      }
      if status.value {
        return None;
      }
      var listed := CallList();
      if listed.None? {
        return Some(Failed);
      }
      return if AnyActive(StatesOf(listed.value), models + dirs) then Some(Conflict) else None;
    }

    /** The delete loop of `removeReferencedPresets`. */
    method DeletePresets(names: seq<string>) returns (error: Option<Error>)
      modifies this`calls, this`log, this`presets
      ensures (error, View()) == DeleteEach(old(View()), e, names)
      ensures exists k :: 0 <= k <= |names| && presets == Minus(old(presets), NameSet(names[..k])) && (error.None? ==> k == |names|)
    {
      hide StoreDelete;
      ghost var before := View();
      ghost var k := DeleteEachExact(before, e, names);
      assert presets == before.presets;
      var i := 0;
      assert names[0..] == names;
      while i < |names|
        invariant 0 <= i <= |names|
        invariant DeleteEach(before, e, names) == DeleteEach(View(), e, names[i..])
      {
        assert names[i..][1..] == names[i + 1..];
        error := CallDelete(names[i]);
        if error.Some? {
          return;
        }
        i := i + 1;
      }
      return None;
    }

    method RemoveReferencedPresets(names: set<string>) returns (error: Option<Error>)
      modifies this`calls, this`log, this`refs, this`presets
      ensures (error, View()) == RemoveReferenced(old(View()), e, names)
      ensures Safe(old(View())) ==> Safe(View())
      ensures RemovedInPart(old(View()), View(), names)
      ensures error.None? ==> presets == Minus(old(presets), names) && refs == Cleaned(old(refs), names)
    {
      hide RemoveReferences;
      hide Refresh;
      hide DeleteEach;
      hide Safe;
      hide Cleaned;
      hide Minus;
      hide RemovedInPart;
      RemoveReferencedParts(View(), e, names);
      if names == {} {
        return None;
      }
      error := RemovePresetReferences(names);
      if error.Some? {
        return;
      }
      var listing := SortKeys(names);
      error := DeletePresets(listing);
      if error.Some? {
        return;
      }
      var refreshed := RefreshRouterSources();
      return if refreshed.Ok? then None else Some(refreshed.error);
    }

    method DeleteModel(path: string, cascade: bool) returns (error: Option<Error>)
      modifies this`calls, this`log, this`refs, this`presets
      ensures (error, View()) == DeleteLocalModel(old(View()), e, path, cascade)
      ensures Safe(old(View())) ==> Safe(View())
      ensures !FileGone(Since(old(View()), View())) ==> presets == old(presets) && refs == old(refs) && error.Some?
      ensures FileGone(Since(old(View()), View())) ==>
        var models, dirs := ModelRefs(Listed(old(View())), e, path), DirRefs(Listed(old(View())), e, path);
        NothingActive(e, old(calls) + 1, models + dirs) && (models == {} || cascade)
      ensures error.None? ==>
        var models := ModelRefs(Listed(old(View())), e, path);
        presets == Minus(old(presets), models) && refs == Cleaned(old(refs), models)
      ensures FileGone(Since(old(View()), View())) <==>
        Cascades(old(View()), e, path, cascade) && e.answer(FileCall(old(View()), e, path)).ok
      ensures error.None? ==>
        forall x :: Has(presets, x) <==> Has(old(presets), x) && !(x != "*" && Loads(e, old(presets).value[x], path))
    {
      ModelDeletionSeen(View(), e, path, cascade);
      hide Safe;
      hide Cleaned;
      hide Cascades;
      hide FileCall;
      hide Loads;
      hide NothingActive;
      hide FileGone;
      hide ValidateCascade;
      hide RemoveReferenced;
      if Safe(View()) { DeleteLocalModelKeeps(View(), e, path, cascade); }
      ModelDeletionExact(View(), e, path, cascade);
      if !e.hasLocalModels {
        return Some(Invalid);
      }
      if !e.hasPresets {
        return Some(Invalid);
      }
      var listed := CallListPresets();
      if listed.Err? {
        return Some(listed.error);
      }
      var models, dirs := ModelRefs(listed.value, e, path), DirRefs(listed.value, e, path);
      error := ValidateModelCascade(models, dirs, cascade);
      if error.Some? {
        return;
      }
      var a := Ask();
      if !a.ok {
        return Some(Failed);
      }
      log := log + [FileDeleted(path)];
      error := RemoveReferencedPresets(models);
    }
  }
}
