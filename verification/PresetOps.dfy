/** The mutations of presets, as sequences of store and router calls that stop at the first failure. */
module PresetOps {
  import opened Wrappers
  import opened ControlWorld
  import opened RouterRefresh
  import opened ConfigLists
  import opened Sorting
  import opened Text
  import PresetFile
  import PresetRender
  import PresetStore

  // ---------- small questions ----------

  function PresetExists(w: World, e: Env, name: string): (Result<bool, Error>, World) {
    var (got, n) := StoreGet(w, e, name);
    (match got
     case Ok(_) => Ok(true)
     case Err(NotFound) => Ok(false)
     case Err(error) => Err(error), n)
  }

  function ModelRunning(w: World, e: Env, name: string): (Result<bool, Error>, World) {
    if !e.hasRouter then (Ok(false), w) else
    var (status, w1) := Status(w, e);
    if status.None? then (Err(Failed), w1)
    else if status.value then (Ok(false), w1) else
    var (models, w2) := ListModels(w1, e);
    if models.None? then (Err(Failed), w2)
    else (Ok(exists m :: m in models.value && m.id == name && ModelStateActive(m.state)), w2)
  }

  /** Takes names out of both kinds of reference. Without a config store it only checks. */
  function RemoveReferences(w: World, e: Env, names: set<string>): (Option<Error>, World) {
    if !e.hasConfig then
      (if exists n :: n in names && Referenced(w.refs, n) then Some(Invalid) else None, w)
    else if !e.answer(w.calls).ok then (Some(Failed), Recorded(Tick(w)))
    else
      (None, Recorded(Tick(w.(refs := Cleaned(w.refs, names)))))
  }

  // ---------- PutPreset ----------

  function Rollback(w: World, e: Env, name: string, previous: RouterState): (Error, World) {
    var (error, w1) := StoreDelete(w, e, name);
    if error.Some? || !previous.running then (Failed, w1)
    else (Failed, Restart(w1, e, previous.active).1)
  }

  function PutPreset(w: World, e: Env, name: string, values: PresetFile.Values, createOnly: bool)
    : (Result<PresetFile.Values, Error>, World)
  {
    if !e.hasPresets then (Err(Invalid), w) else
    var (previous, w1) := if createOnly then Capture(w, e) else (RouterState(false, []), w);
    var (put, w2) := StorePut(w1, e, name, values, createOnly);
    if put.Some? then (Err(put.value), w2) else
    var (saved, w3) := StoreGet(w2, e, name);
    if saved.Err? then (saved, w3) else
    var (refreshed, w4) := Refresh(w3, e);
    if refreshed.Ok? then (saved, w4)
    else if createOnly then
      var (error, w5) := Rollback(w4, e, name, previous);
      (Err(error), w5)
    else (Err(Failed), w4)
  }

  // ---------- DeletePreset ----------

  function Deletable(w: World, e: Env, name: string): (Result<bool, Error>, World) {
    var (found, w1) := PresetExists(w, e, name);
    if found.Err? || !found.value then (found, w1)
    else if Referenced(w1.refs, name) then (Err(Conflict), w1) else
    var (running, w2) := ModelRunning(w1, e, name);
    if running.Err? then (running, w2)
    else if running.value then (Err(Conflict), w2)
    else (Ok(true), w2)
  }

  function DeletePreset(w: World, e: Env, name: string): (Option<Error>, World) {
    if !e.hasPresets then (Some(Invalid), w) else
    var (deletable, w1) := Deletable(w, e, name);
    if deletable.Err? then (Some(deletable.error), w1)
    else if !deletable.value then (None, w1) else
    DeleteAndRefresh(w1, e, name)
  }

  function DeleteAndRefresh(w: World, e: Env, name: string): (Option<Error>, World) {
    var (error, w1) := StoreDelete(w, e, name);
    if error.Some? then (error, w1) else
    var (refreshed, w2) := Refresh(w1, e);
    (if refreshed.Ok? then None else Some(Failed), w2)
  }

  // ---------- CleanupPreset ----------

  function RequireUnavailable(w: World, e: Env, name: string): (Option<Error>, World) {
    var (preset, w1) := StoreGet(w, e, name);
    if preset.Err? then (Some(preset.error), w1)
    else if e.ready(preset.value) then (Some(Conflict), w1) else
    var (running, w2) := ModelRunning(w1, e, name);
    if running.Err? then (Some(running.error), w2)
    else (if running.value then Some(Conflict) else None, w2)
  }

  function CleanupPreset(w: World, e: Env, name: string): (Option<Error>, World) {
    if !e.hasPresets || name == "" then (Some(Invalid), w) else
    var (found, w1) := PresetExists(w, e, name);
    if found.Err? then (Some(found.error), w1) else
    var (unavailable, w2) := if found.value then RequireUnavailable(w1, e, name) else (None, w1);
    if unavailable.Some? then (unavailable, w2) else
    var (removed, w3) := RemoveReferences(w2, e, {name});
    if removed.Some? || !found.value then (removed, w3)
    else DeleteAndRefresh(w3, e, name)
  }

  // ---------- SetPresetAutostart ----------

  function SetAutostart(w: World, e: Env, name: string, enabled: bool): (Option<Error>, World) {
    if !e.hasConfig then (Some(Invalid), w)
    else if enabled && !e.hasPresets then (Some(Invalid), w) else
    var (found, w1) := if enabled then StoreGet(w, e, name) else (Ok(map[]), w);
    if found.Err? then (Some(found.error), w1) else
    var names := if enabled then AppendIfAbsent(w1.refs.autostart, name) else Without(w1.refs.autostart, {name});
    if !e.answer(w1.calls).ok then (Some(Failed), Recorded(Tick(w1)))
    else if names != w1.refs.autostart && |names| > e.modelsMax then (Some(Conflict), Recorded(Tick(w1)))
    else (None, Recorded(Tick(w1.(refs := w1.refs.(autostart := names)))))
  }

  // ---------- DeleteLocalModel ----------

  function SourcePath(e: Env, values: PresetFile.Values, key: string): string {
    var path := if key in values then Trim(values[key]) else "";
    if path == "" then "" else e.canonical(path)
  }

  predicate RefersToModel(e: Env, values: PresetFile.Values, path: string) {
    SourcePath(e, values, "model") != "" && SourcePath(e, values, "model") == e.canonical(path)
  }

  predicate RefersToDir(e: Env, values: PresetFile.Values, path: string) {
    SourcePath(e, values, "models-dir") != "" && e.contains(SourcePath(e, values, "models-dir"), e.canonical(path))
  }

  function ModelRefs(presets: Presets, e: Env, path: string): set<string> {
    set n | n in presets && RefersToModel(e, presets[n], path)
  }

  function DirRefs(presets: Presets, e: Env, path: string): set<string> {
    set n | n in presets && RefersToDir(e, presets[n], path)
  }

  predicate AnyActive(states: map<string, string>, names: set<string>) {
    exists n :: n in names && n in states && ModelStateActive(states[n])
  }

  function ValidateCascade(w: World, e: Env, models: set<string>, dirs: set<string>, cascade: bool): (Option<Error>, World) {
    if models != {} && !cascade then (Some(Conflict), w)
    else if models + dirs == {} || !e.hasRouter then (None, w) else
    var (status, w1) := Status(w, e);
    if status.None? then (Some(Failed), w1)
    else if status.value then (None, w1) else
    var (listed, w2) := ListModels(w1, e);
    if listed.None? then (Some(Failed), w2)
    else (if AnyActive(StatesOf(listed.value), models + dirs) then Some(Conflict) else None, w2)
  }

  function DeleteFile(w: World, e: Env, path: string): (bool, World) {
    var ok := e.answer(w.calls).ok;
    (ok, if ok then Logged(Tick(w), FileDeleted(path)) else Tick(w))
  }

  function DeleteEach(w: World, e: Env, names: seq<string>): (Option<Error>, World)
    decreases |names|
  {
    if names == [] then (None, w) else
    var (error, w1) := StoreDelete(w, e, names[0]);
    if error.Some? then (error, w1) else DeleteEach(w1, e, names[1..])
  }

  ghost function RemoveReferenced(w: World, e: Env, names: set<string>): (Option<Error>, World) {
    if names == {} then (None, w) else
    var (removed, w1) := RemoveReferences(w, e, names);
    if removed.Some? then (removed, w1) else
    var (deleted, w2) := DeleteEach(w1, e, ListingOf(names));
    if deleted.Some? then (deleted, w2) else
    var (refreshed, w3) := Refresh(w2, e);
    (if refreshed.Ok? then None else Some(refreshed.error), w3)
  }

  ghost function DeleteLocalModel(w: World, e: Env, path: string, cascade: bool): (Option<Error>, World) {
    if !e.hasLocalModels || !e.hasPresets then (Some(Invalid), w) else
    var (presets, w1) := StoreList(w, e);
    if presets.Err? then (Some(presets.error), w1) else
    var models, dirs := ModelRefs(presets.value, e, path), DirRefs(presets.value, e, path);
    var (refused, w2) := ValidateCascade(w1, e, models, dirs, cascade);
    if refused.Some? then (refused, w2) else
    var (deleted, w3) := DeleteFile(w2, e, path);
    if !deleted then (Some(Failed), w3)
    else RemoveReferenced(w3, e, models)
  }

  // ---------- what the store calls do ----------

  function PutOp(w: World, e: Env, name: string, values: PresetFile.Values, createOnly: bool): PresetStore.Op {
    PresetStore.Op.Put(name, values, createOnly, e.answer(w.calls).disk)
  }

  /** A Put fails and changes nothing, or stores the section under the trimmed name. */
  lemma StorePutExact(w: World, e: Env, name: string, values: PresetFile.Values, createOnly: bool)
    ensures var (error, n) := StorePut(w, e, name, values, createOnly);
            && n.refs == w.refs && n.calls == w.calls + 1 && n.log == w.log + [Effect.Stored(n.presets, n.refs)]
            && (error.Some? ==> n.presets == w.presets)
            && (error.None? ==>
                  && w.presets.Some? && PresetFile.ValidName(name) && PresetStore.Acceptable(values)
                  && !(createOnly && name in w.presets.value)
                  && n.presets == PresetStore.PutState(w.presets.value, name, PresetRender.Stored(PresetStore.Canonicalized(values))))
            && (w.presets.Some? && n.presets.None? <==> PresetStore.Clashes(w.presets, PutOp(w, e, name, values, createOnly)))
  {
    hide PresetFile.ValidName;
    hide PresetStore.Acceptable;
    hide PresetStore.Canonicalized;
    hide PresetRender.Stored;
    hide Trim;
  }

  /** A Delete takes out one entry or does nothing; either way the log shows the stores. */
  lemma StoreDeleteExact(w: World, e: Env, name: string)
    ensures var (error, n) := StoreDelete(w, e, name);
            && n.refs == w.refs && n.calls == w.calls + 1 && n.log == w.log + [Effect.Stored(n.presets, n.refs)]
            && n.presets == (if error.None? then Minus(w.presets, {name}) else w.presets)
            && (error.None? ==> w.presets.Some? && PresetFile.ValidName(name))
  {
    hide PresetFile.ValidName;
    assert w.presets.Some? && name !in w.presets.value ==> w.presets.value - {name} == w.presets.value;
  }

  /** One write takes out the references to some names and no others. */
  lemma RemoveReferencesExact(w: World, e: Env, names: set<string>)
    ensures var (error, n) := RemoveReferences(w, e, names);
            && n.presets == w.presets && w.log <= n.log
            && (forall i :: |w.log| <= i < |n.log| ==> n.log[i] == Effect.Stored(w.presets, n.refs))
            && n.refs == (if error.None? then Cleaned(w.refs, names) else w.refs)
  {
    if !e.hasConfig && RemoveReferences(w, e, names).0.None? {
      forall n | n in names ensures !Referenced(w.refs, n) {}
      WithoutNone(w.refs.autostart, names);
    }
  }

  // ---------- references survive every step but one ----------

  lemma LogSafeMore(log: seq<Effect>, presets: Option<Presets>, refs: Refs)
    requires LogSafe(log) && RefsOk(presets, refs)
    ensures LogSafe(log + [Effect.Stored(presets, refs)])
  {}

  lemma RouterKeeps(w: World, n: World)
    requires Safe(w) && RouterOnly(w, n)
    ensures Safe(n)
  {
    forall i | 0 <= i < |n.log| && n.log[i].Stored? ensures RefsOk(n.log[i].presets, n.log[i].refs) {
      assert i < |w.log| ==> n.log[i] == w.log[i];
    }
  }

  /** Whether there is any reference at all. */
  predicate Refers(refs: Refs) {
    refs.defaultPreset != "" || refs.autostart != []
  }

  lemma PutStateNames(m: Presets, name: string, values: PresetFile.Values)
    requires Named(Some(m)) && PresetFile.ValidName(name)
    ensures Named(PresetStore.PutState(m, name, values))
    ensures PresetStore.PutState(m, name, values).Some? ==> forall n :: n in m ==> n in PresetStore.PutState(m, name, values).value
  {
    hide Trim;
    hide PresetFile.ValidName;
    TrimIdempotent(name);
    PresetRender.ValidTrimmedName(name);
  }

  /** A Put keeps the references right, unless it makes the file unreadable while there are references. */
  lemma StorePutKeeps(w: World, e: Env, name: string, values: PresetFile.Values, createOnly: bool)
    requires Safe(w)
    ensures Safe(StorePut(w, e, name, values, createOnly).1)
       <==> !(PresetStore.Clashes(w.presets, PutOp(w, e, name, values, createOnly)) && Refers(w.refs))
    ensures !Safe(StorePut(w, e, name, values, createOnly).1) ==> !LogSafe(StorePut(w, e, name, values, createOnly).1.log)
  {
    hide StorePut;
    hide PresetStore.Clashes;
    hide PresetStore.PutState;
    hide PresetStore.Acceptable;
    hide PresetStore.Canonicalized;
    hide PresetRender.Stored;
    StorePutExact(w, e, name, values, createOnly);
    var (error, n) := StorePut(w, e, name, values, createOnly);
    assert n.log[|w.log|] == Effect.Stored(n.presets, n.refs);
    if error.None? {
      PutStateNames(w.presets.value, name, PresetRender.Stored(PresetStore.Canonicalized(values)));
    }
    if RefsOk(n.presets, n.refs) { LogSafeMore(w.log, n.presets, n.refs); }
    if n.presets.None? && Refers(n.refs) {
      assert !RefsOk(n.presets, n.refs) by {
        if n.refs.autostart != [] { assert n.refs.autostart[0] in n.refs.autostart; }
      }
    }
  }

  lemma StoreDeleteKeeps(w: World, e: Env, name: string)
    requires Safe(w) && (name == "" || !Referenced(w.refs, name))
    ensures Safe(StoreDelete(w, e, name).1)
  {
    hide StoreDelete;
    StoreDeleteExact(w, e, name);
    if PresetFile.ValidName(name) { ValidNonEmpty(name); }
    hide PresetFile.ValidName;
    var n := StoreDelete(w, e, name).1;
    LogSafeMore(w.log, n.presets, n.refs);
  }

  lemma RemoveReferencesKeeps(w: World, e: Env, names: set<string>)
    requires Safe(w)
    ensures Safe(RemoveReferences(w, e, names).1)
    ensures RemoveReferences(w, e, names).0.None? ==> forall x :: x in names && x != "" ==> !Referenced(RemoveReferences(w, e, names).1.refs, x)
  {
    hide RemoveReferences;
    hide Without;
    RemoveReferencesExact(w, e, names);
    var n := RemoveReferences(w, e, names).1;
    assert RefsOk(n.presets, n.refs);
    forall i | 0 <= i < |n.log| && n.log[i].Stored? ensures RefsOk(n.log[i].presets, n.log[i].refs) {
      assert i < |w.log| ==> n.log[i] == w.log[i];
    }
  }

  lemma RollbackKeeps(w: World, e: Env, name: string, previous: RouterState)
    requires Safe(w) && !Referenced(w.refs, name)
    ensures Safe(Rollback(w, e, name, previous).1)
  {
    hide StoreDelete;
    hide Restart;
    hide Safe;
    StoreDeleteKeeps(w, e, name);
    var w1 := StoreDelete(w, e, name).1;
    RestartExact(w1, e, previous.active);
    RouterKeeps(w1, Restart(w1, e, previous.active).1);
  }

  lemma ValidNonEmpty(name: string)
    requires PresetFile.ValidName(name)
    ensures name != ""
  {
    TrimTight("");
  }

  /** The state in which the Put of a PutPreset finds the store. */
  function BeforePut(w: World, e: Env, createOnly: bool): World {
    if createOnly then Capture(w, e).1 else w
  }

  /** A PutPreset that writes an untrimmed name whose trimmed form is a preset, while there are references. */
  predicate Breaks(w: World, e: Env, name: string, values: PresetFile.Values, createOnly: bool) {
    e.hasPresets && Refers(w.refs)
    && PresetStore.Clashes(w.presets, PutOp(BeforePut(w, e, createOnly), e, name, values, createOnly))
  }

  /** A PutPreset, with its rollback, keeps every reference right exactly when it does not break the file. */
  lemma PutPresetKeeps(w: World, e: Env, name: string, values: PresetFile.Values, createOnly: bool)
    requires Safe(w)
    ensures Safe(PutPreset(w, e, name, values, createOnly).1) <==> !Breaks(w, e, name, values, createOnly)
    ensures Breaks(w, e, name, values, createOnly) ==> !LogSafe(PutPreset(w, e, name, values, createOnly).1.log)
  {
    hide PresetStore.Clashes;
    hide StorePut;
    hide Capture;
    hide Refresh;
    hide Rollback;
    hide LogSafe;
    hide RefsOk;
    hide Named;
    CaptureExact(w, e);
    var w1 := BeforePut(w, e, createOnly);
    StorePutKeeps(w1, e, name, values, createOnly);
    var (put, w2) := StorePut(w1, e, name, values, createOnly);
    if e.hasPresets {
      AfterPutKeeps(w, e, name, values, createOnly);
    }
  }

  /** What follows the Put keeps what it finds, right or wrong. */
  lemma AfterPutKeeps(w: World, e: Env, name: string, values: PresetFile.Values, createOnly: bool)
    requires Safe(w) && e.hasPresets
    ensures var w2 := StorePut(BeforePut(w, e, createOnly), e, name, values, createOnly).1;
            var n := PutPreset(w, e, name, values, createOnly).1;
            (Safe(w2) ==> Safe(n)) && (!LogSafe(w2.log) ==> !LogSafe(n.log))
  {
    hide StorePut;
    hide Capture;
    hide Refresh;
    hide Rollback;
    hide LogSafe;
    hide PresetStore.PutState;
    hide PresetStore.Clashes;
    CaptureExact(w, e);
    var w1 := BeforePut(w, e, createOnly);
    var previous := if createOnly then Capture(w, e).0 else RouterState(false, []);
    StorePutExact(w1, e, name, values, createOnly);
    var (put, w2) := StorePut(w1, e, name, values, createOnly);
    var w3 := StoreGet(w2, e, name).1;
    RefreshExact(w3, e);
    var w4 := Refresh(w3, e).1;
    if !LogSafe(w2.log) { LongerUnsafe(w3.log, w4.log); }
    if Safe(w2) { RouterKeeps(w3, w4); }
    if createOnly && put.None? {
      RollbackGrows(w4, e, name, previous);
      if !LogSafe(w2.log) { LongerUnsafe(w4.log, Rollback(w4, e, name, previous).1.log); }
      ValidNonEmpty(name);
      assert !Referenced(w1.refs, name);
      if Safe(w2) { RollbackKeeps(w4, e, name, previous); }
    }
  }

  lemma LongerUnsafe(log: seq<Effect>, more: seq<Effect>)
    requires log <= more && !LogSafe(log)
    ensures !LogSafe(more)
  {
    var i :| 0 <= i < |log| && log[i].Stored? && !RefsOk(log[i].presets, log[i].refs);
    assert more[i] == log[i];
  }

  lemma RollbackGrows(w: World, e: Env, name: string, previous: RouterState)
    ensures w.log <= Rollback(w, e, name, previous).1.log
  {
    hide StoreDelete;
    hide Restart;
    StoreDeleteExact(w, e, name);
    RestartExact(StoreDelete(w, e, name).1, e, previous.active);
  }

  lemma DeleteAndRefreshKeeps(w: World, e: Env, name: string)
    requires Safe(w) && (name == "" || !Referenced(w.refs, name))
    ensures Safe(DeleteAndRefresh(w, e, name).1)
  {
    hide StoreDelete;
    hide Refresh;
    hide Safe;
    StoreDeleteKeeps(w, e, name);
    var w1 := StoreDelete(w, e, name).1;
    RefreshExact(w1, e);
    RouterKeeps(w1, Refresh(w1, e).1);
  }

  /** The router, asked from call k on, lists the name in an active state. */
  ghost predicate ListedActive(e: Env, k: nat, name: string) {
    && e.hasRouter && e.answer(k).ok && !e.answer(k).stopped && e.answer(k + 1).ok
    && exists m :: m in e.answer(k + 1).models && m.id == name && ModelStateActive(m.state)
  }

  /** A preset may be deleted when it exists, nothing refers to it and it is not active. */
  lemma DeletableExact(w: World, e: Env, name: string)
    ensures var (r, n) := Deletable(w, e, name);
            && n.presets == w.presets && n.refs == w.refs && n.log == w.log
            && (r == Ok(true) ==> !Referenced(w.refs, name) && Has(w.presets, name) && !ListedActive(e, w.calls + 1, name))
            && (r == Ok(false) <==> !e.answer(w.calls).disk.readFails && w.presets.Some? && name !in w.presets.value)
  {}

  lemma DeletePresetKeeps(w: World, e: Env, name: string)
    requires Safe(w)
    ensures Safe(DeletePreset(w, e, name).1)
  {
    hide Deletable;
    hide DeleteAndRefresh;
    hide LogSafe;
    DeletableExact(w, e, name);
    var (r, w1) := Deletable(w, e, name);
    if r == Ok(true) { DeleteAndRefreshKeeps(w1, e, name); }
  }

  lemma DeleteAndRefreshExact(w: World, e: Env, name: string)
    ensures var (error, n) := DeleteAndRefresh(w, e, name);
            && n.refs == w.refs && w.log <= n.log
            && (n.presets == w.presets || n.presets == Minus(w.presets, {name}))
            && (error.None? ==> w.presets.Some? && n.presets == Minus(w.presets, {name}))
  {
    hide StoreDelete;
    hide Refresh;
    StoreDeleteExact(w, e, name);
    RefreshExact(StoreDelete(w, e, name).1, e);
  }

  /** A DeletePreset takes out a preset that nothing refers to, or nothing; when it reports success the preset is gone. */
  lemma DeletePresetExact(w: World, e: Env, name: string)
    ensures var (error, n) := DeletePreset(w, e, name);
            && n.refs == w.refs && w.log <= n.log
            && (n.presets == w.presets || (n.presets == Minus(w.presets, {name}) && !Referenced(w.refs, name)))
            && (error.None? ==> w.presets.Some? && n.presets == Minus(w.presets, {name}))
  {
    hide Deletable;
    hide DeleteAndRefresh;
    DeletableExact(w, e, name);
    var (r, w1) := Deletable(w, e, name);
    if r == Ok(true) { DeleteAndRefreshExact(w1, e, name); }
    if r == Ok(false) { assert w.presets.value - {name} == w.presets.value; }
  }

  /** A cleanup goes on only for a preset whose source is not ready and which is not active. */
  lemma UnavailableExact(w: World, e: Env, name: string)
    ensures var (r, n) := RequireUnavailable(w, e, name);
            && n.presets == w.presets && n.refs == w.refs && n.log == w.log
            && (r.None? ==> Has(w.presets, name) && !e.ready(w.presets.value[name]) && !ListedActive(e, w.calls + 1, name))
  {}

  lemma CleanupPresetKeeps(w: World, e: Env, name: string)
    requires Safe(w)
    ensures Safe(CleanupPreset(w, e, name).1)
  {
    hide RequireUnavailable;
    hide RemoveReferences;
    hide DeleteAndRefresh;
    hide LogSafe;
    if e.hasPresets && name != "" {
      var (found, w1) := PresetExists(w, e, name);
      UnavailableExact(w1, e, name);
      var w2 := if found == Ok(true) then RequireUnavailable(w1, e, name).1 else w1;
      RemoveReferencesKeeps(w2, e, {name});
      var (removed, w3) := RemoveReferences(w2, e, {name});
      if removed.None? { DeleteAndRefreshKeeps(w3, e, name); }
    }
  }

  /** A cleanup takes out one preset and the references to it, the references first; a preset that is ready or does
      not exist stays as it is. */
  lemma CleanupPresetExact(w: World, e: Env, name: string)
    ensures var (error, n) := CleanupPreset(w, e, name);
            && w.log <= n.log
            && (n.refs == w.refs || n.refs == Cleaned(w.refs, {name}))
            && (n.presets == w.presets
                || (n.presets == Minus(w.presets, {name}) && n.refs == Cleaned(w.refs, {name}) && !e.ready(w.presets.value[name])))
            && (error.None? ==> w.presets.Some? && n.refs == Cleaned(w.refs, {name}) && n.presets == Minus(w.presets, {name}))
  {
    hide RequireUnavailable;
    hide RemoveReferences;
    hide DeleteAndRefresh;
    hide Cleaned;
    if e.hasPresets && name != "" {
      var (found, w1) := PresetExists(w, e, name);
      UnavailableExact(w1, e, name);
      var w2 := if found == Ok(true) then RequireUnavailable(w1, e, name).1 else w1;
      RemoveReferencesExact(w2, e, {name});
      var w3 := RemoveReferences(w2, e, {name}).1;
      DeleteAndRefreshExact(w3, e, name);
      if found == Ok(false) { assert w.presets.value - {name} == w.presets.value; }
    }
  }

  lemma SetAutostartKeeps(w: World, e: Env, name: string, enabled: bool)
    requires Safe(w)
    ensures Safe(SetAutostart(w, e, name, enabled).1)
  {
    hide AppendIfAbsent;
    hide Without;
    hide Named;
    var n := SetAutostart(w, e, name, enabled).1;
    assert n.presets == w.presets;
    LogSafeMore(w.log, n.presets, n.refs);
  }

  /** The list changes only as asked for, only within the cap, and an enabled preset exists. */
  lemma SetAutostartExact(w: World, e: Env, name: string, enabled: bool)
    ensures var (error, n) := SetAutostart(w, e, name, enabled);
            && w.log <= n.log && n.presets == w.presets && n.refs.defaultPreset == w.refs.defaultPreset
            && (error.Some? ==> n.refs == w.refs)
            && (error.None? && enabled ==> Has(w.presets, name) && n.refs.autostart == AppendIfAbsent(w.refs.autostart, name))
            && (error.None? && !enabled ==> n.refs.autostart == Without(w.refs.autostart, {name}))
            && (n.refs == w.refs || |n.refs.autostart| <= e.modelsMax)
  {
    hide AppendIfAbsent;
    hide Without;
  }

  lemma {:induction false} DeleteEachKeeps(w: World, e: Env, names: seq<string>)
    requires Safe(w) && forall n :: n in names ==> n == "" || !Referenced(w.refs, n)
    ensures Safe(DeleteEach(w, e, names).1)
    decreases |names|
  {
    hide StoreDelete;
    hide Safe;
    if names != [] {
      StoreDeleteKeeps(w, e, names[0]);
      StoreDeleteExact(w, e, names[0]);
      var (error, w1) := StoreDelete(w, e, names[0]);
      if error.None? { DeleteEachKeeps(w1, e, names[1..]); }
    }
  }

  /** The router, asked from call k on, is missing, stopped, or lists none of the names as active. */
  ghost predicate NothingActive(e: Env, k: nat, names: set<string>) {
    || names == {} || !e.hasRouter
    || (e.answer(k).ok && e.answer(k).stopped)
    || (e.answer(k).ok && e.answer(k + 1).ok && !AnyActive(StatesOf(e.answer(k + 1).models), names))
  }

  /** The check before a deletion passes exactly when no referencing preset can be active and, where there are
      presets of the file itself, the caller asked for the cascade. */
  lemma CascadeExact(w: World, e: Env, models: set<string>, dirs: set<string>, cascade: bool)
    ensures var (r, n) := ValidateCascade(w, e, models, dirs, cascade);
            && n.presets == w.presets && n.refs == w.refs && n.log == w.log
            && (r.None? <==> NothingActive(e, w.calls, models + dirs) && (models == {} || cascade))
  {
    hide AnyActive;
    hide StatesOf;
  }

  lemma FileDeletedKeeps(w: World, e: Env, path: string)
    requires Safe(w)
    ensures Safe(DeleteFile(w, e, path).1)
  {}

  lemma RemoveReferencedKeeps(w: World, e: Env, names: set<string>)
    requires Safe(w)
    ensures Safe(RemoveReferenced(w, e, names).1)
  {
    hide RemoveReferences;
    hide DeleteEach;
    hide Refresh;
    hide Safe;
    RemoveReferencesKeeps(w, e, names);
    var (removed, w1) := RemoveReferences(w, e, names);
    if removed.None? {
      DeleteEachKeeps(w1, e, ListingOf(names));
      var w2 := DeleteEach(w1, e, ListingOf(names)).1;
      RefreshExact(w2, e);
      RouterKeeps(w2, Refresh(w2, e).1);
    }
  }

  lemma DeleteLocalModelKeeps(w: World, e: Env, path: string, cascade: bool)
    requires Safe(w)
    ensures Safe(DeleteLocalModel(w, e, path, cascade).1)
  {
    hide ValidateCascade;
    hide DeleteFile;
    hide RemoveReferenced;
    hide LogSafe;
    if e.hasLocalModels && e.hasPresets {
      var (presets, w1) := StoreList(w, e);
      if presets.Ok? {
        var models, dirs := ModelRefs(presets.value, e, path), DirRefs(presets.value, e, path);
        CascadeExact(w1, e, models, dirs, cascade);
        var w2 := ValidateCascade(w1, e, models, dirs, cascade).1;
        FileDeletedKeeps(w2, e, path);
        RemoveReferencedKeeps(DeleteFile(w2, e, path).1, e, models);
      }
    }
  }

  // ---------- over every run ----------

  datatype Op =
    | Put(name: string, values: PresetFile.Values, createOnly: bool)
    | Delete(name: string)
    | Cleanup(name: string)
    | DeleteModel(path: string, cascade: bool)
    | Autostart(name: string, enabled: bool)
    | RefreshSources

  ghost function Apply(w: World, e: Env, op: Op): World {
    match op
    case Put(name, values, createOnly) => PutPreset(w, e, name, values, createOnly).1
    case Delete(name) => DeletePreset(w, e, name).1
    case Cleanup(name) => CleanupPreset(w, e, name).1
    case DeleteModel(path, cascade) => DeleteLocalModel(w, e, path, cascade).1
    case Autostart(name, enabled) => SetAutostart(w, e, name, enabled).1
    case RefreshSources => Refresh(w, e).1
  }

  ghost function Run(w: World, e: Env, ops: seq<Op>): World
    decreases |ops|
  {
    if ops == [] then w else Run(Apply(w, e, ops[0]), e, ops[1..])
  }

  predicate OpBreaks(w: World, e: Env, op: Op) {
    op.Put? && Breaks(w, e, op.name, op.values, op.createOnly)
  }

  /** Some Put of the run writes an untrimmed name next to its trimmed form, while there are references. */
  ghost predicate Breaking(w: World, e: Env, ops: seq<Op>)
    decreases |ops|
  {
    ops != [] && (OpBreaks(w, e, ops[0]) || Breaking(Apply(w, e, ops[0]), e, ops[1..]))
  }

  /** Whatever fails, after every single store call of a run the references name existing presets,
      if and only if no Put of the run breaks the file under them. */
  lemma {:induction false} ReferencesAlwaysExist(w: World, e: Env, ops: seq<Op>)
    requires Safe(w)
    ensures Safe(Run(w, e, ops)) <==> !Breaking(w, e, ops)
    decreases |ops|
  {
    hide Safe;
    hide OpBreaks;
    hide Apply;
    if ops != [] {
      ApplyKeeps(w, e, ops[0]);
      var next := Apply(w, e, ops[0]);
      if OpBreaks(w, e, ops[0]) {
        RunGrows(next, e, ops[1..]);
        LongerUnsafe(next.log, Run(next, e, ops[1..]).log);
        SafeLog(Run(next, e, ops[1..]));
      } else {
        ReferencesAlwaysExist(next, e, ops[1..]);
      }
    }
  }

  lemma SafeLog(w: World)
    ensures Safe(w) ==> LogSafe(w.log)
  {}

  lemma ApplyKeeps(w: World, e: Env, op: Op)
    requires Safe(w)
    ensures Safe(Apply(w, e, op)) <==> !OpBreaks(w, e, op)
    ensures OpBreaks(w, e, op) ==> !LogSafe(Apply(w, e, op).log)
  {
    hide Safe;
    hide Breaks;
    hide LogSafe;
    hide PutPreset;
    hide DeletePreset;
    hide CleanupPreset;
    hide DeleteLocalModel;
    hide SetAutostart;
    hide Refresh;
    match op
    case Put(name, values, createOnly) => PutPresetKeeps(w, e, name, values, createOnly);
    case Delete(name) => DeletePresetKeeps(w, e, name);
    case Cleanup(name) => CleanupPresetKeeps(w, e, name);
    case DeleteModel(path, cascade) => DeleteLocalModelKeeps(w, e, path, cascade);
    case Autostart(name, enabled) => SetAutostartKeeps(w, e, name, enabled);
    case RefreshSources => RefreshExact(w, e); RouterKeeps(w, Refresh(w, e).1);
  }

  lemma {:induction false} RunGrows(w: World, e: Env, ops: seq<Op>)
    ensures w.log <= Run(w, e, ops).log
    decreases |ops|
  {
    hide Apply;
    if ops != [] {
      ApplyGrows(w, e, ops[0]);
      RunGrows(Apply(w, e, ops[0]), e, ops[1..]);
    }
  }

  lemma ApplyGrows(w: World, e: Env, op: Op)
    ensures w.log <= Apply(w, e, op).log
  {
    hide PutPreset;
    hide DeletePreset;
    hide CleanupPreset;
    hide DeleteLocalModel;
    hide SetAutostart;
    hide Refresh;
    hide Cleaned;
    match op
    case Put(name, values, createOnly) => PutPresetGrows(w, e, name, values, createOnly);
    case Delete(name) => DeletePresetExact(w, e, name);
    case Cleanup(name) => CleanupPresetExact(w, e, name);
    case DeleteModel(path, cascade) => ModelDeletionExact(w, e, path, cascade);
    case Autostart(name, enabled) => SetAutostartExact(w, e, name, enabled);
    case RefreshSources => RefreshExact(w, e);
  }

  lemma PutPresetGrows(w: World, e: Env, name: string, values: PresetFile.Values, createOnly: bool)
    ensures w.log <= PutPreset(w, e, name, values, createOnly).1.log
  {
    hide StorePut;
    hide Capture;
    hide Refresh;
    hide Rollback;
    CaptureExact(w, e);
    var w1 := BeforePut(w, e, createOnly);
    StorePutExact(w1, e, name, values, createOnly);
    var w3 := StoreGet(StorePut(w1, e, name, values, createOnly).1, e, name).1;
    RefreshExact(w3, e);
    RollbackGrows(Refresh(w3, e).1, e, name, if createOnly then Capture(w, e).0 else RouterState(false, []));
  }

  /** With trimmed names every run is safe. */
  lemma {:induction false} TrimmedNamesAreSafe(w: World, e: Env, ops: seq<Op>)
    requires Safe(w)
    requires forall i :: 0 <= i < |ops| && ops[i].Put? ==> Trim(ops[i].name) == ops[i].name
    ensures Safe(Run(w, e, ops))
  {
    NotBreaking(w, e, ops);
    ReferencesAlwaysExist(w, e, ops);
  }

  lemma {:induction false} NotBreaking(w: World, e: Env, ops: seq<Op>)
    requires forall i :: 0 <= i < |ops| && ops[i].Put? ==> Trim(ops[i].name) == ops[i].name
    ensures !Breaking(w, e, ops)
    decreases |ops|
  {
    hide Apply;
    hide Trim;
    hide PresetStore.Acceptable;
    hide PresetFile.ValidName;
    if ops != [] { NotBreaking(Apply(w, e, ops[0]), e, ops[1..]); }
  }

  // ---------- what single operations achieve ----------

  /** The Put of a creation fails, or the name has no space around it and is not that of the section for all presets,
      and the disk lets the section be read back and the rollback read and write the file. */
  predicate CreationUndone(w: World, e: Env, name: string, values: PresetFile.Values) {
    var (put, w2) := StorePut(Capture(w, e).1, e, name, values, true);
    var rollback := Refresh(StoreGet(w2, e, name).1, e).1.calls;
    || put.Some?
    || (Trim(name) == name && name != "*" && !e.answer(w2.calls).disk.readFails
        && !e.answer(rollback).disk.readFails && !e.answer(rollback).disk.writeFails)
  }

  /** When the store deletes a section that is there. */
  lemma StoreDeleteGuard(w: World, e: Env, name: string)
    requires Has(w.presets, name) && PresetFile.ValidName(name)
    ensures StoreDelete(w, e, name).0.None?
       <==> name != "*" && !e.answer(w.calls).disk.readFails && !e.answer(w.calls).disk.writeFails
  {
    hide PresetFile.ValidName;
  }

  /** What a creation leaves. When it fails, the presets are as before exactly when it is undone in this sense.
      After a complete recovery every preset that was active is active or loaded again. */
  lemma PutRollsBack(w: World, e: Env, name: string, values: PresetFile.Values)
    requires e.hasPresets
    ensures var (previous, w1) := Capture(w, e);
            var (put, w2) := StorePut(w1, e, name, values, true);
            var (saved, w3) := StoreGet(w2, e, name);
            var (refreshed, w4) := Refresh(w3, e);
            var (undone, w5) := StoreDelete(w4, e, name);
            var (r, n) := PutPreset(w, e, name, values, true);
            && n.refs == w.refs
            && (r.Ok? <==> put.None? && saved.Ok? && refreshed.Ok?)
            && (put.None? ==> (saved.Ok? <==> Trim(name) == name && !e.answer(w2.calls).disk.readFails))
            && (r.Err? ==> (n.presets == w.presets <==> CreationUndone(w, e, name, values)))
            && (put.None? && saved.Ok? && refreshed.Err? && undone.None? && previous.running ==>
                  var restarted := Restart(w5, e, previous.active);
                  n == restarted.1
                  && (restarted.0.Ok? && e.answer(w.calls + 1).ok ==>
                        Restored(Since(w5, n), ActiveNames(e.answer(w.calls + 1).models),
                                 StatesOf(e.answer(w5.calls + 2).models))))
  {
    hide Refresh;
    hide Capture;
    hide Restart;
    hide StorePut;
    hide StoreDelete;
    hide Restored;
    hide PresetStore.PutState;
    hide PresetStore.Clashes;
    hide PresetStore.Acceptable;
    hide PresetStore.Canonicalized;
    hide PresetRender.Stored;
    hide PresetFile.ValidName;
    hide Trim;
    CaptureExact(w, e);
    var (previous, w1) := Capture(w, e);
    StorePutExact(w1, e, name, values, true);
    var (put, w2) := StorePut(w1, e, name, values, true);
    var w3 := StoreGet(w2, e, name).1;
    RefreshExact(w3, e);
    var w4 := Refresh(w3, e).1;
    StoreDeleteExact(w4, e, name);
    var w5 := StoreDelete(w4, e, name).1;
    RestartExact(w5, e, previous.active);
    if put.None? {
      CreatedState(w.presets.value, name, PresetRender.Stored(PresetStore.Canonicalized(values)));
      if Trim(name) == name { StoreDeleteGuard(w4, e, name); }
    }
  }

  /** A created section is found under its name exactly when the name is trimmed, and deleting it undoes the creation. */
  lemma CreatedState(m: Presets, name: string, values: PresetFile.Values)
    requires name !in m
    ensures var next := PresetStore.PutState(m, name, values);
            && next != Some(m)
            && (Has(next, name) <==> Trim(name) == name)
            && (Trim(name) == name ==> next.Some? && Minus(next, {name}) == Some(m))
  {
    hide Trim;
    var next := PresetStore.PutState(m, name, values);
    if next.Some? {
      assert Trim(name) in next.value;
      if Trim(name) == name { assert next.value - {name} == m; }
    }
  }

  /** A PutPreset that succeeds returns what is stored under the name. */
  lemma PutPresetReturns(w: World, e: Env, name: string, values: PresetFile.Values, createOnly: bool)
    ensures var (r, n) := PutPreset(w, e, name, values, createOnly);
            n.refs == w.refs && (r.Ok? ==> Has(n.presets, name) && n.presets.value[name] == r.value)
  {
    hide StorePut;
    hide Capture;
    hide Refresh;
    hide StoreDelete;
    hide Restart;
    hide PresetStore.PutState;
    hide PresetStore.Clashes;
    CaptureExact(w, e);
    var w1 := BeforePut(w, e, createOnly);
    StorePutExact(w1, e, name, values, createOnly);
    var w3 := StoreGet(StorePut(w1, e, name, values, createOnly).1, e, name).1;
    RefreshExact(w3, e);
    var w4 := Refresh(w3, e).1;
    StoreDeleteExact(w4, e, name);
    RestartExact(StoreDelete(w4, e, name).1, e, if createOnly then Capture(w, e).0.active else []);
  }

  function NameSet(names: seq<string>): set<string> {
    set n | n in names
  }

  /** What the log shows of deletions: after each of them the presets without the names so far. */
  function Deletions(presets: Option<Presets>, refs: Refs, names: seq<string>): (effects: seq<Effect>)
    ensures forall x :: x in effects ==> x.Stored?
    decreases |names|
  {
    if names == [] then []
    else [Effect.Stored(Minus(presets, {names[0]}), refs)] + Deletions(Minus(presets, {names[0]}), refs, names[1..])
  }

  /** The names are deleted in their order up to the first failure, and nothing else changes. */
  lemma {:induction false} DeleteEachExact(w: World, e: Env, names: seq<string>) returns (k: nat)
    ensures var (error, n) := DeleteEach(w, e, names);
            && k <= |names| && (error.None? <==> k == |names|)
            && n.refs == w.refs && n.presets == Minus(w.presets, NameSet(names[..k]))
            && n.log == w.log + (Deletions(w.presets, w.refs, names[..k]) + if error.None? then [] else [Effect.Stored(n.presets, w.refs)])
    decreases |names|
  {
    hide StoreDelete;
    MinusNone(w.presets);
    assert NameSet([]) == {};
    if names == [] {
      k := 0;
      assert names[..0] == [];
    } else {
      StoreDeleteExact(w, e, names[0]);
      var (error, w1) := StoreDelete(w, e, names[0]);
      if error.Some? {
        k := 0;
        assert names[..0] == [];
      } else {
        var rest := DeleteEachExact(w1, e, names[1..]);
        k := rest + 1;
        MinusMore(w.presets, names, rest);
        assert names[..k][0] == names[0] && names[..k][1..] == names[1..][..rest];
      }
    }
  }

  lemma MinusNone(presets: Option<Presets>)
    ensures Minus(presets, {}) == presets
  {
    if presets.Some? { assert presets.value - {} == presets.value; }
  }

  lemma MinusMore(presets: Option<Presets>, names: seq<string>, i: nat)
    requires i < |names|
    ensures Minus(Minus(presets, {names[0]}), NameSet(names[1..][..i])) == Minus(presets, NameSet(names[..i + 1]))
  {
    assert names[..i + 1] == [names[0]] + names[1..][..i];
    assert NameSet(names[..i + 1]) == {names[0]} + NameSet(names[1..][..i]);
    if presets.Some? {
      assert presets.value - {names[0]} - NameSet(names[1..][..i]) == presets.value - NameSet(names[..i + 1]);
    }
  }

  lemma DeleteListed(w: World, e: Env, names: set<string>) returns (gone: set<string>)
    ensures var (error, n) := DeleteEach(w, e, ListingOf(names));
            && gone <= names && n.presets == Minus(w.presets, gone) && n.refs == w.refs
            && (error.None? ==> gone == names)
            && w.log <= n.log && (forall i :: |w.log| <= i < |n.log| ==> n.log[i].Stored?)
  {
    hide DeleteEach;
    hide Minus;
    var listing := ListingOf(names);
    var k := DeleteEachExact(w, e, listing);
    gone := NameSet(listing[..k]);
    assert forall x :: x in listing[..k] ==> x in listing;
    assert k == |listing| ==> listing[..k] == listing && gone == names;
    var (error, n) := DeleteEach(w, e, listing);
    StoredAppend(w.log, Deletions(w.presets, w.refs, listing[..k]) + if error.None? then [] else [Effect.Stored(n.presets, w.refs)]);
  }

  /** The cleanup after a model file is gone removes the references to the named presets, then these presets one by
      one; other references and presets stay as they are, and a failure leaves only some of it undone. */
  lemma RemoveReferencedExact(w: World, e: Env, names: set<string>) returns (gone: set<string>)
    ensures var (error, n) := RemoveReferenced(w, e, names);
            && gone <= names && n.presets == Minus(w.presets, gone)
            && (n.refs == w.refs || n.refs == Cleaned(w.refs, names))
            && (gone != {} ==> n.refs == Cleaned(w.refs, names))
            && (error.None? ==> gone == names && n.refs == Cleaned(w.refs, names))
            && w.log <= n.log
            && (forall i :: |w.log| <= i < |n.log| ==> !n.log[i].FileDeleted?)
  {
    hide RemoveReferences;
    hide Refresh;
    hide DeleteEach;
    gone := {};
    MinusNone(w.presets);
    if names == {} {
      WithoutNone(w.refs.autostart, names);
    } else {
      hide Cleaned;
      hide Minus;
      RemoveReferencesExact(w, e, names);
      var (removed, w1) := RemoveReferences(w, e, names);
      if removed.None? {
        gone := DeleteListed(w1, e, names);
        RefreshExact(DeleteEach(w1, e, ListingOf(names)).1, e);
      }
    }
  }

  /** Some of the named presets are gone, their references before them, and nothing else changed in the stores. */
  ghost predicate RemovedInPart(w: World, n: World, names: set<string>) {
    && (n.refs == w.refs || n.refs == Cleaned(w.refs, names))
    && exists gone: set<string> :: gone <= names && n.presets == Minus(w.presets, gone) && (gone != {} ==> n.refs == Cleaned(w.refs, names))
  }

  lemma RemoveReferencedParts(w: World, e: Env, names: set<string>)
    ensures var (error, n) := RemoveReferenced(w, e, names);
            && (Safe(w) ==> Safe(n)) && RemovedInPart(w, n, names)
            && (error.None? ==> n.presets == Minus(w.presets, names) && n.refs == Cleaned(w.refs, names))
  {
    hide Safe;
    hide RemoveReferenced;
    hide Cleaned;
    if Safe(w) { RemoveReferencedKeeps(w, e, names); }
    var gone := RemoveReferencedExact(w, e, names);
  }

  lemma StoredAppend(log: seq<Effect>, added: seq<Effect>)
    requires forall x :: x in added ==> x.Stored?
    ensures forall i :: |log| <= i < |log + added| ==> (log + added)[i].Stored?
  {
    forall i | |log| <= i < |log + added| ensures (log + added)[i].Stored? {
      assert (log + added)[i] == added[i - |log|];
    }
  }

  /** The presets that a listing shows. */
  function Listed(w: World): Presets {
    if w.presets.Some? then w.presets.value - {"*"} else map[]
  }

  /** DeleteLocalModel touches the stores only after the file is gone, deletes the file only when no referencing preset
      is active, and ends with exactly the presets that do not name the file and the references to these. */
  lemma ModelDeletionExact(w: World, e: Env, path: string, cascade: bool)
    ensures var (error, n) := DeleteLocalModel(w, e, path, cascade);
            var models, dirs := ModelRefs(Listed(w), e, path), DirRefs(Listed(w), e, path);
            && w.log <= n.log
            && (!FileGone(Since(w, n)) ==> n.presets == w.presets && n.refs == w.refs && error.Some?)
            && (FileGone(Since(w, n)) ==> NothingActive(e, w.calls + 1, models + dirs) && (models == {} || cascade))
            && RemovedInPart(w, n, models)
            && (error.None? ==>
                  && n.presets == Minus(w.presets, models) && n.refs == Cleaned(w.refs, models)
                  && (forall x :: Has(n.presets, x) && x != "*" ==> !RefersToModel(e, n.presets.value[x], path)))
  {
    hide ValidateCascade;
    hide RemoveReferenced;
    hide RefersToModel;
    hide RefersToDir;
    hide NothingActive;
    hide Cleaned;
    MinusNone(w.presets);
    assert {} <= ModelRefs(Listed(w), e, path);
    if e.hasLocalModels && e.hasPresets {
      var (presets, w1) := StoreList(w, e);
      if presets.Ok? {
        var models, dirs := ModelRefs(presets.value, e, path), DirRefs(presets.value, e, path);
        CascadeExact(w1, e, models, dirs, cascade);
        var (refused, w2) := ValidateCascade(w1, e, models, dirs, cascade);
        var (deleted, w3) := DeleteFile(w2, e, path);
        if refused.None? && deleted {
          var gone := RemoveReferencedExact(w3, e, models);
          assert gone <= models;
          var n := RemoveReferenced(w3, e, models).1;
          assert Since(w, n)[0] == FileDeleted(path);
          assert FileDeleted(path) in Since(w, n);
        }
      }
    }
  }

  ghost predicate FileGone(effects: seq<Effect>) {
    exists x :: x in effects && x.FileDeleted?
  }
}
