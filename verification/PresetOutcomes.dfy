/** When each mutation of presets succeeds, told from the stores and the answers of the calls it makes. */
module PresetOutcomes {
  import opened Wrappers
  import opened ControlWorld
  import opened RouterRefresh
  import opened PresetOps
  import opened ConfigLists
  import opened Sorting
  import opened Text
  import PresetFile
  import PresetRender
  import PresetStore

  // ---------- the single calls ----------

  predicate Reads(e: Env, k: nat) { !e.answer(k).disk.readFails }

  predicate Writes(e: Env, k: nat) { !e.answer(k).disk.readFails && !e.answer(k).disk.writeFails }

  /** How many calls it takes to ask whether a name is active. */
  function Asked(e: Env, k: nat): nat {
    if !e.hasRouter then 0 else if e.answer(k).ok && !e.answer(k).stopped then 2 else 1
  }

  /** The router, asked from call k on, is missing, stopped, or lists no entry of the name in an active state. */
  ghost predicate Inactive(e: Env, k: nat, name: string) {
    || !e.hasRouter
    || (e.answer(k).ok && e.answer(k).stopped)
    || (e.answer(k).ok && e.answer(k + 1).ok
        && forall m :: m in e.answer(k + 1).models && m.id == name ==> m.state !in {"loaded", "sleeping", "loading", "downloading"})
  }

  /** The router runs and lists an entry of the name in an active state. */
  ghost predicate Active(e: Env, k: nat, name: string) {
    && Running(e, k) && e.answer(k + 1).ok
    && exists m :: m in e.answer(k + 1).models && m.id == name && m.state in {"loaded", "sleeping", "loading", "downloading"}
  }

  lemma RunningExact(w: World, e: Env, name: string)
    ensures var (r, n) := ModelRunning(w, e, name);
            && n == w.(calls := w.calls + Asked(e, w.calls))
            && (r == Ok(true) <==> Active(e, w.calls, name))
            && (r == Ok(false) <==> Inactive(e, w.calls, name))
            && (r.Err? ==> r == Err(Failed))
  {
    forall state: string ensures ModelStateActive(state) <==> state in {"loaded", "sleeping", "loading", "downloading"} {
      ActiveStates(state);
    }
    hide ModelStateActive;
  }

  lemma DeleteSucceeds(w: World, e: Env, name: string)
    requires Has(w.presets, name)
    ensures var (error, n) := StoreDelete(w, e, name);
            && (error.None? <==> PresetFile.ValidName(name) && name != "*" && Writes(e, w.calls))
            && n == Recorded(Tick(w.(presets := if error.None? then Minus(w.presets, {name}) else w.presets)))
            && (error.Some? ==> error == if PresetFile.ValidName(name) && name != "*" then Some(Failed) else Some(Invalid))
  {
    hide PresetFile.ValidName;
  }

  /** Whether the references to some names can be taken out with call k. */
  predicate Clearable(w: World, e: Env, k: nat, names: set<string>) {
    if e.hasConfig then e.answer(k).ok else forall n :: n in names ==> n != w.refs.defaultPreset && n !in w.refs.autostart
  }

  function Cost(e: Env): nat {
    if e.hasConfig then 1 else 0
  }

  lemma ClearSucceeds(w: World, e: Env, names: set<string>)
    ensures var (error, n) := RemoveReferences(w, e, names);
            && (error.None? <==> Clearable(w, e, w.calls, names))
            && n.calls == w.calls + Cost(e) && n.presets == w.presets
            && (error.Some? ==> error == if e.hasConfig then Some(Failed) else Some(Invalid))
  {
    hide Cleaned;
  }

  // ---------- DeletePreset ----------

  /** The world when the preset has been deleted with call k. */
  function Deleted(w: World, k: nat, name: string): World {
    var presets := Minus(w.presets, {name});
    World(presets, w.refs, k + 1, w.log + [Effect.Stored(presets, w.refs)])
  }

  /** The name can be deleted, nothing refers to it, it is not active, and the disk lets it be read and then written. */
  ghost predicate DeleteGoes(w: World, e: Env, name: string) {
    && e.hasPresets && PresetFile.ValidName(name) && name != "*"
    && name != w.refs.defaultPreset && name !in w.refs.autostart
    && Inactive(e, w.calls + 1, name) && Reads(e, w.calls) && Writes(e, w.calls + 1 + Asked(e, w.calls + 1))
  }

  /** The answer before a deletion: yes, no, a conflict, or that it cannot be told. */
  lemma DeletableSucceeds(w: World, e: Env, name: string)
    ensures var r := Deletable(w, e, name).0;
            var referenced := name == w.refs.defaultPreset || name in w.refs.autostart;
            && (r == Ok(true) <==> Reads(e, w.calls) && Has(w.presets, name) && !referenced && Inactive(e, w.calls + 1, name))
            && (r == Ok(false) <==> Reads(e, w.calls) && w.presets.Some? && !Has(w.presets, name))
            && (r == Err(Conflict) <==> Reads(e, w.calls) && Has(w.presets, name) && (referenced || Active(e, w.calls + 1, name)))
  {
    RunningExact(StoreGet(w, e, name).1, e, name);
    hide ModelRunning;
    hide Inactive;
    hide Active;
  }

  /** A stored preset is gone after a DeletePreset exactly when its name can be deleted, nothing refers to it, it is not
      active, and the disk lets it be read and then written. Once it is gone the only error is that of the refresh;
      a reference or an active entry is a conflict. */
  lemma DeletePresetSucceeds(w: World, e: Env, name: string)
    requires Has(w.presets, name)
    ensures var (error, n) := DeletePreset(w, e, name);
            var k := w.calls;
            var last := k + 1 + Asked(e, k + 1);
            && (!Has(n.presets, name) <==> DeleteGoes(w, e, name))
            && (Has(n.presets, name) ==> error.Some? && n.presets == w.presets)
            && (!Has(n.presets, name) ==>
                  var (refreshed, end) := Refresh(Deleted(w, last, name), e);
                  n == end && error == if refreshed.Ok? then None else Some(Failed))
            && (e.hasPresets && Reads(e, k) && (name == w.refs.defaultPreset || name in w.refs.autostart || Active(e, k + 1, name)) ==>
                  error == Some(Conflict))
  {
    hide Refresh;
    hide StoreDelete;
    hide PresetFile.ValidName;
    hide Inactive;
    hide Active;
    hide ModelRunning;
    var w1 := StoreGet(w, e, name).1;
    RunningExact(w1, e, name);
    NotBoth(e, w.calls + 1, name);
    var w2 := ModelRunning(w1, e, name).1;
    DeleteSucceeds(w2, e, name);
    var w3 := StoreDelete(w2, e, name).1;
    RefreshExact(w3, e);
    assert w2.presets == w.presets && !Has(Minus(w.presets, {name}), name);
  }

  lemma NotBoth(e: Env, k: nat, name: string)
    ensures !(Active(e, k, name) && Inactive(e, k, name))
  {}

  /** Deleting what is not stored succeeds as soon as the file can be read, and changes nothing. */
  lemma DeleteMissingSucceeds(w: World, e: Env, name: string)
    requires !Has(w.presets, name)
    ensures var (error, n) := DeletePreset(w, e, name);
            && n.presets == w.presets && n.refs == w.refs && n.log == w.log
            && (error.None? <==> e.hasPresets && Reads(e, w.calls) && w.presets.Some?)
  {
    hide ModelRunning;
    hide DeleteAndRefresh;
  }

  // ---------- CleanupPreset ----------

  lemma UnavailableSucceeds(w: World, e: Env, name: string)
    requires Has(w.presets, name)
    ensures var (error, n) := RequireUnavailable(w, e, name);
            && (error.None? <==> Reads(e, w.calls) && !e.ready(w.presets.value[name]) && Inactive(e, w.calls + 1, name))
            && n.presets == w.presets && n.refs == w.refs && n.log == w.log
            && (error.None? ==> n.calls == w.calls + 1 + Asked(e, w.calls + 1))
            && (Reads(e, w.calls) && (e.ready(w.presets.value[name]) || Active(e, w.calls + 1, name)) ==> error == Some(Conflict))
  {
    var w1 := StoreGet(w, e, name).1;
    RunningExact(w1, e, name);
    NotBoth(e, w.calls + 1, name);
    hide ModelRunning;
    hide Inactive;
    hide Active;
  }

  /** The calls of a cleanup after the check of the name: removing the references, and deleting the preset. */
  function ClearCall(e: Env, k: nat): nat { k + 2 + Asked(e, k + 2) }
  function DeleteCall(e: Env, k: nat): nat { ClearCall(e, k) + Cost(e) }

  /** The preset is not ready and not active, its references can be taken out, and the disk lets it be deleted. */
  ghost predicate CleanupGoes(w: World, e: Env, name: string)
    requires Has(w.presets, name)
  {
    && Cleanable(w, e, name)
    && Clearable(w, e, ClearCall(e, w.calls), {name})
    && PresetFile.ValidName(name) && name != "*" && Writes(e, DeleteCall(e, w.calls))
  }

  /** The checks of a cleanup: the preset can be read, is not ready and not active. */
  ghost predicate Cleanable(w: World, e: Env, name: string)
    requires Has(w.presets, name)
  {
    && e.hasPresets && name != "" && Reads(e, w.calls) && Reads(e, w.calls + 1)
    && !e.ready(w.presets.value[name]) && Inactive(e, w.calls + 2, name)
  }

  /** A stored preset that is not ready and not active is cleaned up, its references first, exactly when these can be
      taken out and the disk lets it be deleted; then the only error left is that of the refresh. */
  lemma CleanupSucceeds(w: World, e: Env, name: string)
    requires Has(w.presets, name)
    ensures var (error, n) := CleanupPreset(w, e, name);
            var k := w.calls;
            && (!Has(n.presets, name) <==> CleanupGoes(w, e, name))
            && (Has(n.presets, name) ==> error.Some? && n.presets == w.presets)
            && (!Has(n.presets, name) ==>
                  var w3 := RemoveReferences(w.(calls := ClearCall(e, k)), e, {name}).1;
                  var (refreshed, end) := Refresh(Deleted(w3, DeleteCall(e, k), name), e);
                  n == end && error == if refreshed.Ok? then None else Some(Failed))
  {
    hide *;
    CleanupTakes(w, e, name);
    TakenOut(w, e, ClearCall(e, w.calls), name);
    CleanupParts(w, e, name);
    if !Cleanable(w, e, name) { SameHas(w, CleanupPreset(w, e, name).1, name); }
  }

  lemma CleanupParts(w: World, e: Env, name: string)
    requires Has(w.presets, name)
    ensures CleanupGoes(w, e, name) <==>
              && Cleanable(w, e, name) && Clearable(w, e, ClearCall(e, w.calls), {name})
              && PresetFile.ValidName(name) && name != "*" && Writes(e, ClearCall(e, w.calls) + Cost(e))
    ensures DeleteCall(e, w.calls) == ClearCall(e, w.calls) + Cost(e)
  {
    hide Cleanable;
    hide Clearable;
    hide PresetFile.ValidName;
    hide Writes;
  }

  lemma SameHas(w: World, n: World, name: string)
    requires n.presets == w.presets
    ensures Has(n.presets, name) <==> Has(w.presets, name)
  {}

  /** A cleanup that the checks let through removes the references and the preset; another one fails and changes nothing. */
  lemma CleanupTakes(w: World, e: Env, name: string)
    requires Has(w.presets, name)
    ensures if Cleanable(w, e, name)
            then CleanupPreset(w, e, name) == TakeOut(w.(calls := ClearCall(e, w.calls)), e, name)
            else CleanupPreset(w, e, name).0.Some? && CleanupPreset(w, e, name).1.presets == w.presets
  {
    var w1 := StoreGet(w, e, name).1;
    UnavailableSucceeds(w1, e, name);
    CleanupSteps(w, e, name);
    hide CleanupPreset;
    hide TakeOut;
    hide RequireUnavailable;
    hide Inactive;
    hide Active;
  }

  /** What a caller of a cleanup sees: only the preset and the references to it go, the preset last and never when it
      is ready; a stored one goes exactly under the condition above, and after success both are gone. */
  ghost predicate CleanedUp(w: World, e: Env, name: string, error: Option<Error>, n: World) {
    && (n.refs == w.refs || n.refs == Cleaned(w.refs, {name}))
    && (n.presets == w.presets
        || (n.presets == Minus(w.presets, {name}) && n.refs == Cleaned(w.refs, {name}) && Has(w.presets, name) && !e.ready(w.presets.value[name])))
    && (error.None? ==> n.refs == Cleaned(w.refs, {name}) && n.presets == Minus(w.presets, {name}) && n.presets.Some?)
    && (Has(w.presets, name) ==> (!Has(n.presets, name) <==> CleanupGoes(w, e, name)))
  }

  lemma CleanupSeen(w: World, e: Env, name: string)
    ensures CleanedUp(w, e, name, CleanupPreset(w, e, name).0, CleanupPreset(w, e, name).1)
  {
    CleanupPresetExact(w, e, name);
    if Has(w.presets, name) {
      CleanupSucceeds(w, e, name);
    } else if w.presets.Some? {
      assert w.presets.value - {name} == w.presets.value;
    }
    hide CleanupPreset;
    hide CleanupGoes;
    hide Refresh;
    hide RemoveReferences;
    hide Cleaned;
    hide Deleted;
  }

  /** A preset that is ready, or active, is not cleaned up. */
  lemma CleanupRefuses(w: World, e: Env, name: string)
    requires Has(w.presets, name) && e.hasPresets && name != "" && Reads(e, w.calls) && Reads(e, w.calls + 1)
    requires e.ready(w.presets.value[name]) || Active(e, w.calls + 2, name)
    ensures CleanupPreset(w, e, name).0 == Some(Conflict) && CleanupPreset(w, e, name).1.refs == w.refs
  {
    UnavailableSucceeds(StoreGet(w, e, name).1, e, name);
    CleanupSteps(w, e, name);
    NotBoth(e, w.calls + 2, name);
    hide CleanupPreset;
    hide TakeOut;
    hide RequireUnavailable;
  }

  /** The last part of a cleanup. */
  function TakeOut(w: World, e: Env, name: string): (Option<Error>, World) {
    var (removed, w1) := RemoveReferences(w, e, {name});
    if removed.Some? then (removed, w1) else DeleteAndRefresh(w1, e, name)
  }

  lemma CleanupSteps(w: World, e: Env, name: string)
    requires Has(w.presets, name)
    ensures var w1 := StoreGet(w, e, name).1;
            var (unavailable, w2) := RequireUnavailable(w1, e, name);
            && (!e.hasPresets || name == "" ==> CleanupPreset(w, e, name) == (Some(Invalid), w))
            && (e.hasPresets && name != "" && !Reads(e, w.calls) ==> CleanupPreset(w, e, name) == (Some(Failed), w1))
            && (e.hasPresets && name != "" && Reads(e, w.calls) ==>
                  CleanupPreset(w, e, name) == if unavailable.Some? then (unavailable, w2) else TakeOut(w2, e, name))
  {
    hide RequireUnavailable;
    hide RemoveReferences;
    hide DeleteAndRefresh;
  }

  lemma TakenOut(w: World, e: Env, k: nat, name: string)
    requires Has(w.presets, name)
    ensures var (error, n) := TakeOut(w.(calls := k), e, name);
            && (!Has(n.presets, name) <==> Clearable(w, e, k, {name}) && PresetFile.ValidName(name) && name != "*" && Writes(e, k + Cost(e)))
            && (Has(n.presets, name) ==> error.Some? && n.presets == w.presets)
            && (!Has(n.presets, name) ==>
                  var w1 := RemoveReferences(w.(calls := k), e, {name}).1;
                  var (refreshed, end) := Refresh(Deleted(w1, k + Cost(e), name), e);
                  n == end && error == if refreshed.Ok? then None else Some(Failed))
  {
    var v := w.(calls := k);
    ClearSucceeds(v, e, {name});
    assert Clearable(v, e, k, {name}) == Clearable(w, e, k, {name});
    var w1 := RemoveReferences(v, e, {name}).1;
    DeleteSucceeds(w1, e, name);
    RefreshExact(StoreDelete(w1, e, name).1, e);
    assert !Has(Minus(w.presets, {name}), name);
    hide Refresh;
    hide StoreDelete;
    hide RemoveReferences;
    hide PresetFile.ValidName;
    hide Clearable;
  }

  /** Cleaning up what is not stored takes out the references to it, exactly when the file can be read and they can. */
  lemma CleanupMissingSucceeds(w: World, e: Env, name: string)
    requires !Has(w.presets, name)
    ensures var (error, n) := CleanupPreset(w, e, name);
            && n.presets == w.presets
            && (error.None? <==>
                  e.hasPresets && name != "" && Reads(e, w.calls) && w.presets.Some? && Clearable(w, e, w.calls + 1, {name}))
  {
    var w1 := StoreGet(w, e, name).1;
    ClearSucceeds(w1, e, {name});
    assert Clearable(w1, e, w1.calls, {name}) == Clearable(w, e, w1.calls, {name});
    hide RemoveReferences;
    hide Clearable;
  }

  // ---------- SetPresetAutostart ----------

  /** Enabling needs a stored preset and room below the cap, disabling what is there does not; both need the stores
      to be configured and to answer. The one conflict is the cap. */
  lemma AutostartSucceeds(w: World, e: Env, name: string, enabled: bool)
    ensures var (error, n) := SetAutostart(w, e, name, enabled);
            var k := if enabled then w.calls + 1 else w.calls;
            var names := w.refs.autostart;
            var answered := e.hasConfig && (enabled ==> e.hasPresets && Reads(e, w.calls) && Has(w.presets, name)) && e.answer(k).ok;
            var fits := if enabled then name in names || |names| + 1 <= e.modelsMax else name !in names || |Without(names, {name})| <= e.modelsMax;
            && (error.None? <==> answered && fits)
            && (error == Some(Conflict) <==> answered && !fits)
            && (enabled && e.hasConfig && e.hasPresets && Reads(e, w.calls) && w.presets.Some? && !Has(w.presets, name) ==> error == Some(NotFound))
            && n.refs == (if error.Some? then w.refs
                          else if enabled then w.refs.(autostart := if name in names then names else names + [name])
                          else w.refs.(autostart := Without(names, {name})))
  {
    if name in w.refs.autostart { assert Without(w.refs.autostart, {name}) != w.refs.autostart; }
    else { WithoutNone(w.refs.autostart, {name}); }
    hide Without;
  }

  // ---------- PutPreset ----------

  /** When the store takes a section. */
  predicate Accepts(w: World, e: Env, name: string, values: PresetFile.Values, createOnly: bool) {
    && PresetFile.ValidName(name) && PresetStore.Acceptable(values)
    && w.presets.Some? && !(createOnly && name in w.presets.value) && Writes(e, w.calls)
  }

  lemma PutSucceeds(w: World, e: Env, name: string, values: PresetFile.Values, createOnly: bool)
    ensures var (error, n) := StorePut(w, e, name, values, createOnly);
            && (error.None? <==> Accepts(w, e, name, values, createOnly))
            && (error.Some? ==> n.presets == w.presets)
            && (error.None? ==> n.presets == PresetStore.PutState(w.presets.value, name, PresetRender.Stored(PresetStore.Canonicalized(values))))
            && n.refs == w.refs && n.calls == w.calls + 1
            && (error == Some(Conflict) <==>
                  && PresetFile.ValidName(name) && PresetStore.Acceptable(values) && Reads(e, w.calls)
                  && createOnly && Has(w.presets, name))
  {
    hide PresetFile.ValidName;
    hide PresetStore.Acceptable;
    hide PresetStore.Canonicalized;
    hide PresetStore.PutState;
    hide PresetRender.Stored;
  }

  /** A PutPreset succeeds exactly when the store takes the section, finds it again under its name, which needs a
      trimmed one, and the router is refreshed. Without createOnly the section stays whatever follows. */
  lemma PutPresetSucceeds(w: World, e: Env, name: string, values: PresetFile.Values, createOnly: bool)
    ensures var (r, n) := PutPreset(w, e, name, values, createOnly);
            var w1 := BeforePut(w, e, createOnly);
            var k := w1.calls;
            && (r.Ok? <==>
                  && e.hasPresets && Accepts(w1, e, name, values, createOnly) && Trim(name) == name && Reads(e, k + 1)
                  && Refresh(StorePut(w1, e, name, values, createOnly).1.(calls := k + 2), e).0.Ok?)
            && (r.Ok? ==> n.presets == Some(w.presets.value[name := PresetRender.Stored(PresetStore.Canonicalized(values))])
                          && r.value == PresetRender.Stored(PresetStore.Canonicalized(values)))
            && (e.hasPresets && Accepts(w1, e, name, values, createOnly) && !createOnly ==>
                  n.presets == PresetStore.PutState(w.presets.value, name, PresetRender.Stored(PresetStore.Canonicalized(values))))
            && (e.hasPresets && !Accepts(w1, e, name, values, createOnly) ==> n.presets == w.presets)
            && (e.hasPresets && PresetFile.ValidName(name) && PresetStore.Acceptable(values) && Reads(e, k) && createOnly && Has(w.presets, name) ==>
                  r == Err(Conflict))
  {
    hide StorePut;
    hide Capture;
    hide Refresh;
    hide Rollback;
    hide Accepts;
    hide PresetStore.Canonicalized;
    hide PresetStore.PutState;
    hide PresetRender.Stored;
    hide Trim;
    CaptureExact(w, e);
    var w1 := BeforePut(w, e, createOnly);
    PutSucceeds(w1, e, name, values, createOnly);
    var (put, w2) := StorePut(w1, e, name, values, createOnly);
    if put.None? { FoundAgain(w1, e, name, values, createOnly); }
    var w3 := StoreGet(w2, e, name).1;
    RefreshExact(w3, e);
    assert w3 == w2.(calls := w1.calls + 2);
  }

  /** What a caller of a PutPreset sees: after success the store has taken the section under its name, and without
      createOnly it keeps what it takes even after a failure. */
  ghost predicate Saved(w: World, e: Env, name: string, values: PresetFile.Values, createOnly: bool, r: Result<PresetFile.Values, Error>, n: World) {
    && (r.Ok? ==> Accepts(BeforePut(w, e, createOnly), e, name, values, createOnly) && Trim(name) == name
                  && n.presets == Some(w.presets.value[name := PresetRender.Stored(PresetStore.Canonicalized(values))]))
    && (e.hasPresets && !createOnly && Accepts(w, e, name, values, false) ==>
          n.presets == PresetStore.PutState(w.presets.value, name, PresetRender.Stored(PresetStore.Canonicalized(values))))
  }

  lemma PutPresetSeen(w: World, e: Env, name: string, values: PresetFile.Values, createOnly: bool)
    ensures Saved(w, e, name, values, createOnly, PutPreset(w, e, name, values, createOnly).0, PutPreset(w, e, name, values, createOnly).1)
  {
    PutPresetSucceeds(w, e, name, values, createOnly);
    CaptureExact(w, e);
    hide PutPreset;
    hide Refresh;
    hide StorePut;
    hide Capture;
    hide PresetStore.PutState;
    hide PresetStore.Canonicalized;
    hide PresetRender.Stored;
    hide PresetFile.ValidName;
    hide PresetStore.Acceptable;
    hide Trim;
  }

  lemma FoundAgain(w: World, e: Env, name: string, values: PresetFile.Values, createOnly: bool)
    requires Accepts(w, e, name, values, createOnly)
    ensures var stored := PresetRender.Stored(PresetStore.Canonicalized(values));
            var next := PresetStore.PutState(w.presets.value, name, stored);
            && (Has(next, name) <==> Trim(name) == name)
            && (Trim(name) == name ==> next == Some(w.presets.value[name := stored]))
  {
    hide PresetFile.ValidName;
    hide PresetStore.Acceptable;
    hide PresetStore.Canonicalized;
    hide PresetRender.Stored;
    hide Trim;
    var stored := PresetRender.Stored(PresetStore.Canonicalized(values));
    assert (w.presets.value - {name})[name := stored] == w.presets.value[name := stored];
  }

  // ---------- DeleteLocalModel ----------

  /** The preset loads the file: its `model` is not blank and means the same path. */
  ghost predicate Loads(e: Env, values: PresetFile.Values, path: string) {
    && "model" in values && Trim(values["model"]) != ""
    && e.canonical(Trim(values["model"])) == e.canonical(path) && e.canonical(path) != ""
  }

  /** The preset offers a directory that contains the file: its `models-dir` is not blank and means one. */
  ghost predicate Offers(e: Env, values: PresetFile.Values, path: string) {
    && "models-dir" in values && Trim(values["models-dir"]) != ""
    && e.canonical(Trim(values["models-dir"])) != ""
    && e.contains(e.canonical(Trim(values["models-dir"])), e.canonical(path))
  }

  /** A preset that a listing shows. */
  predicate Shown(w: World, name: string) { Has(w.presets, name) && name != "*" }

  /** The last entry of the name that the router lists is in an active state. */
  ghost predicate LastActive(e: Env, k: nat, name: string) {
    && name in StatesOf(e.answer(k).models)
    && StatesOf(e.answer(k).models)[name] in {"loaded", "sleeping", "loading", "downloading"}
  }

  lemma RefsExact(w: World, e: Env, path: string, name: string)
    ensures name in ModelRefs(Listed(w), e, path) <==> Shown(w, name) && Loads(e, w.presets.value[name], path)
    ensures name in DirRefs(Listed(w), e, path) <==> Shown(w, name) && Offers(e, w.presets.value[name], path)
  {
    hide Trim;
  }

  lemma QuietExact(e: Env, k: nat, names: set<string>)
    ensures NothingActive(e, k, names) <==>
            || names == {} || !e.hasRouter || (e.answer(k).ok && e.answer(k).stopped)
            || (e.answer(k).ok && e.answer(k + 1).ok && forall x :: x in names ==> !LastActive(e, k + 1, x))
  {
    forall state: string ensures ModelStateActive(state) <==> state in {"loaded", "sleeping", "loading", "downloading"} {
      ActiveStates(state);
    }
    hide ModelStateActive;
    hide StatesOf;
  }

  /** The file is deleted only when no preset that loads it or offers its directory is active, and with the cascade
      asked for if a preset loads it. After success no preset loads it any more, every other preset is kept with its
      values, also one that offers the directory, and what referred to the presets that went is cleared. */
  lemma ModelDeletionByValues(w: World, e: Env, path: string, cascade: bool)
    ensures var (error, n) := DeleteLocalModel(w, e, path, cascade);
            && (FileGone(Since(w, n)) ==>
                  && (forall x :: Shown(w, x) && Loads(e, w.presets.value[x], path) ==> cascade)
                  && (forall x :: Shown(w, x) && (Loads(e, w.presets.value[x], path) || Offers(e, w.presets.value[x], path)) ==>
                        !e.hasRouter || (e.answer(w.calls + 1).ok && (e.answer(w.calls + 1).stopped
                          || (e.answer(w.calls + 2).ok && !LastActive(e, w.calls + 2, x))))))
            && (!FileGone(Since(w, n)) ==> error.Some? && n.presets == w.presets && n.refs == w.refs)
            && (error.None? ==>
                  && (forall x :: Has(n.presets, x) <==> Has(w.presets, x) && !(x != "*" && Loads(e, w.presets.value[x], path)))
                  && (forall x :: Has(n.presets, x) ==> n.presets.value[x] == w.presets.value[x])
                  && var gone := set x | x in Listed(w) && Loads(e, w.presets.value[x], path);
                     n.refs == Refs(if w.refs.defaultPreset in gone then "" else w.refs.defaultPreset, Without(w.refs.autostart, gone)))
  {
    ModelDeletionExact(w, e, path, cascade);
    var models, dirs := ModelRefs(Listed(w), e, path), DirRefs(Listed(w), e, path);
    QuietExact(e, w.calls + 1, models + dirs);
    forall x ensures x in models <==> Shown(w, x) && Loads(e, w.presets.value[x], path)
             ensures x in dirs <==> Shown(w, x) && Offers(e, w.presets.value[x], path)
    {
      RefsExact(w, e, path, x);
    }
    hide DeleteLocalModel;
    hide ModelRefs;
    hide DirRefs;
    hide Loads;
    hide Offers;
    hide LastActive;
    hide NothingActive;
    hide FileGone;
    hide RemovedInPart;
    assert models == set x | x in Listed(w) && Loads(e, w.presets.value[x], path);
  }

  /** With a preset that loads the file and no cascade, or one that uses the file and is active, the deletion is a
      conflict and changes nothing. */
  lemma ModelDeletionRefuses(w: World, e: Env, path: string, cascade: bool, x: string)
    requires e.hasLocalModels && e.hasPresets && Reads(e, w.calls) && Shown(w, x)
    requires || (Loads(e, w.presets.value[x], path) && !cascade)
             || ((Loads(e, w.presets.value[x], path) || Offers(e, w.presets.value[x], path))
                 && Running(e, w.calls + 1) && e.answer(w.calls + 2).ok && LastActive(e, w.calls + 2, x))
    ensures var (error, n) := DeleteLocalModel(w, e, path, cascade);
            error == Some(Conflict) && n.presets == w.presets && n.refs == w.refs && n.log == w.log
  {
    RefsExact(w, e, path, x);
    hide ModelRefs;
    hide DirRefs;
    hide Loads;
    hide Offers;
    hide StatesOf;
    hide RemoveReferenced;
    var models, dirs := ModelRefs(Listed(w), e, path), DirRefs(Listed(w), e, path);
    assert x in models + dirs;
    if models == {} || cascade {
      ActiveStates(StatesOf(e.answer(w.calls + 2).models)[x]);
      hide ModelStateActive;
      assert AnyActive(StatesOf(e.answer(w.calls + 2).models), models + dirs);
      hide AnyActive;
    }
  }

  /** Without the stores it needs an operation is invalid, and changes nothing. */
  lemma NotConfigured(w: World, e: Env, name: string, values: PresetFile.Values, createOnly: bool, enabled: bool, cascade: bool)
    ensures !e.hasPresets ==>
              && PutPreset(w, e, name, values, createOnly) == (Err(Invalid), w)
              && DeletePreset(w, e, name) == (Some(Invalid), w) && CleanupPreset(w, e, name) == (Some(Invalid), w)
    ensures !e.hasPresets || !e.hasLocalModels ==> DeleteLocalModel(w, e, name, cascade) == (Some(Invalid), w)
    ensures !e.hasConfig || (enabled && !e.hasPresets) ==> SetAutostart(w, e, name, enabled) == (Some(Invalid), w)
    ensures CleanupPreset(w, e, "") == (Some(Invalid), w)
  {}

  // ---------- when it goes through ----------

  /** How many calls the check before a deletion takes. */
  function CheckCost(e: Env, k: nat, names: set<string>): nat {
    if names == {} then 0 else Asked(e, k)
  }

  lemma CheckSucceeds(w: World, e: Env, models: set<string>, dirs: set<string>, cascade: bool)
    requires models == {} || cascade
    ensures ValidateCascade(w, e, models, dirs, cascade).1 == w.(calls := w.calls + CheckCost(e, w.calls, models + dirs))
  {
    hide AnyActive;
    hide StatesOf;
  }

  /** Each name can be deleted, and the disk lets it, one call after the other from call k on. */
  predicate Deletes(e: Env, k: nat, names: seq<string>)
    decreases |names|
  {
    names == [] || (PresetFile.ValidName(names[0]) && names[0] != "*" && Writes(e, k) && Deletes(e, k + 1, names[1..]))
  }

  /** Presets that are there are deleted one after the other exactly when every single deletion goes through. */
  lemma {:induction false} DeleteEachSucceeds(w: World, e: Env, names: seq<string>)
    requires w.presets.Some? && forall i :: 0 <= i < |names| ==> Has(w.presets, names[i])
    requires forall i, j :: 0 <= i < j < |names| ==> names[i] != names[j]
    ensures DeleteEach(w, e, names).0.None? <==> Deletes(e, w.calls, names)
    decreases |names|
  {
    hide StoreDelete;
    hide PresetFile.ValidName;
    hide Writes;
    if names != [] {
      DeleteSucceeds(w, e, names[0]);
      var (error, w1) := StoreDelete(w, e, names[0]);
      if error.None? { DeleteEachSucceeds(w1, e, names[1..]); }
    }
  }

  /** The call that deletes the file. */
  ghost function FileCall(w: World, e: Env, path: string): nat {
    w.calls + 1 + CheckCost(e, w.calls + 1, ModelRefs(Listed(w), e, path) + DirRefs(Listed(w), e, path))
  }

  /** The check of a deletion passes. */
  ghost predicate Cascades(w: World, e: Env, path: string, cascade: bool) {
    var models, dirs := ModelRefs(Listed(w), e, path), DirRefs(Listed(w), e, path);
    && e.hasLocalModels && e.hasPresets && Reads(e, w.calls) && w.presets.Some?
    && NothingActive(e, w.calls + 1, models + dirs) && (models == {} || cascade)
  }

  /** The references are taken out, each preset is deleted and the router refreshed, from call k on. */
  ghost predicate CleansUp(w: World, e: Env, k: nat, names: set<string>) {
    var listing := ListingOf(names);
    var w1 := RemoveReferences(w, e, names).1;
    && Clearable(w, e, k, names)
    && Deletes(e, k + Cost(e), listing)
    && Refresh(DeleteEach(w1, e, listing).1, e).0.Ok?
  }

  lemma {:induction false} SortedDistinct(names: seq<string>, s: set<string>)
    requires IsListing(names, s)
    ensures forall i, j :: 0 <= i < j < |names| ==> names[i] != names[j]
  {}

  lemma RemovalSucceeds(w: World, e: Env, names: set<string>)
    requires w.presets.Some? && forall x :: x in names ==> Has(w.presets, x)
    ensures RemoveReferenced(w, e, names).0.None? <==> names == {} || CleansUp(w, e, w.calls, names)
  {
    hide RemoveReferences;
    hide DeleteEach;
    hide Refresh;
    hide Clearable;
    hide Deletes;
    ClearSucceeds(w, e, names);
    var w1 := RemoveReferences(w, e, names).1;
    SortedDistinct(ListingOf(names), names);
    forall i | 0 <= i < |ListingOf(names)| ensures Has(w1.presets, ListingOf(names)[i]) {
      assert ListingOf(names)[i] in ListingOf(names);
    }
    DeleteEachSucceeds(w1, e, ListingOf(names));
  }

  /** A deletion that the check lets through, and whose file goes, cleans up; another one fails and leaves no trace. */
  lemma DeletionSteps(w: World, e: Env, path: string, cascade: bool)
    ensures var (error, n) := DeleteLocalModel(w, e, path, cascade);
            var k := FileCall(w, e, path);
            if Cascades(w, e, path, cascade) && e.answer(k).ok then
              DeleteLocalModel(w, e, path, cascade)
           == RemoveReferenced(World(w.presets, w.refs, k + 1, w.log + [FileDeleted(path)]), e, ModelRefs(Listed(w), e, path))
            else error.Some? && n.log == w.log
  {
    hide ValidateCascade;
    hide RemoveReferenced;
    hide NothingActive;
    hide ModelRefs;
    hide DirRefs;
    var models, dirs := ModelRefs(Listed(w), e, path), DirRefs(Listed(w), e, path);
    var (listed, w1) := StoreList(w, e);
    if e.hasLocalModels && e.hasPresets && listed.Ok? {
      CascadeExact(w1, e, models, dirs, cascade);
      if models == {} || cascade {
        CheckSucceeds(w1, e, models, dirs, cascade);
        assert ValidateCascade(w1, e, models, dirs, cascade).1.calls == FileCall(w, e, path);
      }
      assert models == ModelRefs(listed.value, e, path) && dirs == DirRefs(listed.value, e, path);
      var (refused, w2) := ValidateCascade(w1, e, models, dirs, cascade);
      assert refused.None? <==> Cascades(w, e, path, cascade);
      if refused.Some? { assert DeleteLocalModel(w, e, path, cascade) == (refused, w2); }
      else if !e.answer(w2.calls).ok { assert DeleteLocalModel(w, e, path, cascade) == (Some(Failed), Tick(w2)); }
      hide CheckCost;
    }
  }

  /** The file goes exactly when the check passes and its deletion does; the whole succeeds exactly when the presets that
      load it are cleaned up as well. */
  lemma ModelDeletionSucceeds(w: World, e: Env, path: string, cascade: bool)
    ensures var (error, n) := DeleteLocalModel(w, e, path, cascade);
            var models := ModelRefs(Listed(w), e, path);
            var k := FileCall(w, e, path);
            && (FileGone(Since(w, n)) <==> Cascades(w, e, path, cascade) && e.answer(k).ok)
            && (error.None? <==>
                  && Cascades(w, e, path, cascade) && e.answer(k).ok
                  && (models == {} || CleansUp(World(w.presets, w.refs, k + 1, w.log + [FileDeleted(path)]), e, k + 1, models)))
  {
    hide *;
    DeletionSteps(w, e, path, cascade);
    var k := FileCall(w, e, path);
    if Cascades(w, e, path, cascade) && e.answer(k).ok {
      var models := ModelRefs(Listed(w), e, path);
      var w3 := World(w.presets, w.refs, k + 1, w.log + [FileDeleted(path)]);
      RefsStored(w, e, path, cascade);
      RemovalSucceeds(w3, e, models);
      var gone := RemoveReferencedExact(w3, e, models);
      FileShows(w, RemoveReferenced(w3, e, models).1, path);
    } else {
      NothingGone(w, DeleteLocalModel(w, e, path, cascade).1);
    }
  }

  lemma RefsStored(w: World, e: Env, path: string, cascade: bool)
    ensures Cascades(w, e, path, cascade) ==> w.presets.Some?
    ensures forall x :: x in ModelRefs(Listed(w), e, path) ==> Has(w.presets, x)
  {
    hide RefersToModel;
    hide NothingActive;
  }

  /** What a caller of a deletion sees of the stores and the file. */
  lemma ModelDeletionSeen(w: World, e: Env, path: string, cascade: bool)
    ensures var (error, n) := DeleteLocalModel(w, e, path, cascade);
            && (FileGone(Since(w, n)) <==> Cascades(w, e, path, cascade) && e.answer(FileCall(w, e, path)).ok)
            && (error.None? ==>
                  forall x :: Has(n.presets, x) <==> Has(w.presets, x) && !(x != "*" && Loads(e, w.presets.value[x], path)))
  {
    ModelDeletionByValues(w, e, path, cascade);
    ModelDeletionSucceeds(w, e, path, cascade);
    hide *;
  }

  lemma FileShows(w: World, n: World, path: string)
    requires w.log + [FileDeleted(path)] <= n.log
    ensures FileGone(Since(w, n))
  {
    assert Since(w, n)[0] == FileDeleted(path);
    assert FileDeleted(path) in Since(w, n);
  }

  lemma NothingGone(w: World, n: World)
    requires n.log == w.log
    ensures !FileGone(Since(w, n))
  {
    assert Since(w, n) == [];
  }
}
