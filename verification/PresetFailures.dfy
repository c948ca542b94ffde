/** Names and answers at which the promises of the preset mutations fail, and the names for which they cannot. */
module PresetFailures {
  import opened Wrappers
  import opened Text
  import opened ControlWorld
  import opened PresetOps
  import PresetFile
  import PresetRender
  import PresetStore
  import RouterRefresh

  const FINE := Answer(true, false, [], PresetStore.Disk(false, false))
  const DOWN := Answer(false, false, [], PresetStore.Disk(false, false))
  const UNREAD := Answer(true, false, [], PresetStore.Disk(true, false))

  /** Both stores are configured and the Router is not; every call succeeds. */
  function Calm(): Env {
    Env(true, false, true, true, 1, k => FINE, path => path, (dir, path) => false, values => true)
  }

  /** The second call cannot read the file; all others succeed. */
  function UnreadOnce(): Env {
    Calm().(answer := k => if k == 1 then UNREAD else FINE)
  }

  /** The Router runs; of its calls the second listing and the stop that follows it fail. */
  function StopFails(): Env {
    Calm().(hasRouter := true, answer := k => if k == 5 || k == 6 then DOWN else FINE)
  }

  function OnePreset(name: string): World {
    World(Some(map[name := map[]]), Refs("", [name]), 0, [])
  }

  const NO_PRESETS := World(Some(map[]), Refs("", []), 0, [])

  lemma OneIsSafe(name: string)
    requires PresetFile.ValidName(name) && Trim(name) == name
    ensures Safe(OnePreset(name))
  {}

  lemma PutWritten(w: World, e: Env, name: string, createOnly: bool)
    requires e.hasPresets && !e.hasRouter && w.presets.Some? && PresetFile.ValidName(name) && name !in w.presets.value
    requires e.answer(w.calls) == FINE
    ensures PutPreset(w, e, name, map[], createOnly).1.refs == w.refs
    ensures var (r, n) := PutPreset(w, e, name, map[], createOnly);
            && n.presets == PresetStore.PutState(w.presets.value, name, map[])
            && (r.Ok? <==> !e.answer(w.calls + 1).disk.readFails && Has(n.presets, name))
            && (Effect.Stored(n.presets, n.refs) in n.log)
  {
    hide Trim;
    hide PresetFile.ValidName;
    hide PresetStore.PutState;
    PresetStore.NoValues();
    hide PresetStore.Acceptable;
    hide PresetStore.Canonicalized;
    hide PresetRender.Stored;
    var op := PutOp(w, e, name, map[], createOnly);
    assert PresetStore.ApplyState(w.presets, op) == (PresetStore.PutState(w.presets.value, name, map[]), None);
  }

  /** An untrimmed name, put next to its trimmed form, leaves no readable file and every reference without its preset. */
  lemma UntrimmedPutBreaks(name: string)
    requires PresetFile.ValidName(name) && Trim(name) != name
    ensures var w := OnePreset(Trim(name));
            && Safe(w) && !Safe(PutPreset(w, Calm(), name, map[], false).1)
            && PutPreset(w, Calm(), name, map[], false).1.presets == None
  {
    hide PutPreset;
    hide PresetFile.ValidName;
    TrimIdempotent(name);
    PresetRender.ValidTrimmedName(name);
    OneIsSafe(Trim(name));
    hide Trim;
    var w := OnePreset(Trim(name));
    PutWritten(w, Calm(), name, false);
    var n := PutPreset(w, Calm(), name, map[], false).1;
    assert n.presets == None;
    assert n.refs.autostart[0] in n.refs.autostart;
  }

  /** The input at hand: a file that says `[a]`, autostart of `a`, and a Put of ` a`. */
  lemma SpaceBeforeNameBreaks()
    ensures var w := World(Some(map["a" := map[]]), Refs("", ["a"]), 0, []);
            Safe(w) && !Safe(PutPreset(w, Calm(), " a", map[], false).1) && PutPreset(w, Calm(), " a", map[], false).1.presets == None
  {
    PresetStore.PlainNames();
    UntrimmedPutBreaks(" a");
  }

  /** Putting under a name keeps the references right in every state and whichever calls fail,
      if and only if the name is trimmed or refused anyway. */
  lemma SafeNames(name: string)
    ensures (forall w: World, e: Env, values: PresetFile.Values, createOnly: bool ::
               Safe(w) ==> Safe(PutPreset(w, e, name, values, createOnly).1))
       <==> Trim(name) == name || !PresetFile.ValidName(name)
  {
    hide Safe;
    hide PutPreset;
    if Trim(name) == name || !PresetFile.ValidName(name) {
      forall w: World, e: Env, values: PresetFile.Values, createOnly: bool | Safe(w)
        ensures Safe(PutPreset(w, e, name, values, createOnly).1)
      {
        PutPresetKeeps(w, e, name, values, createOnly);
        hide Trim;
        hide PresetFile.ValidName;
        hide PresetStore.Acceptable;
      }
    } else {
      UntrimmedPutBreaks(name);
      assert Safe(OnePreset(Trim(name)));
    }
  }

  /** A creation of ` a` fails, and leaves the preset `a` behind; so does one whose section cannot be read back.
      A creation of `*` whose refresh fails leaves the section for all presets, although the disk fails nowhere. */
  lemma FailedCreationStays()
    ensures var (r, n) := PutPreset(NO_PRESETS, Calm(), " a", map[], true);
            r.Err? && n.presets == Some(map["a" := map[]])
    ensures var (r, n) := PutPreset(NO_PRESETS, UnreadOnce(), "a", map[], true);
            r.Err? && n.presets == Some(map["a" := map[]])
    ensures var (r, n) := PutPreset(NO_PRESETS, StopFails(), "*", map[], true);
            r.Err? && n.presets == Some(map["*" := map[]])
  {
    hide PutPreset;
    GlobalCreationStays();
    PresetStore.PlainNames();
    hide Trim;
    hide PresetFile.ValidName;
    PutWritten(NO_PRESETS, Calm(), " a", true);
    PutWritten(NO_PRESETS, UnreadOnce(), "a", true);
    var none: Presets := map[];
    var values: PresetFile.Values := map[];
    assert (none - {" a"})["a" := values] == map["a" := values];
    assert (none - {"a"})["a" := values] == map["a" := values];
    assert " a" !in map["a" := values] by { assert |" a"| != |"a"|; }
  }

  lemma GlobalName()
    ensures Trim("*") == "*" && PresetFile.ValidName("*")
  {
    TrimTight("*");
  }

  lemma GlobalPut(w: World, e: Env)
    requires w.presets == Some(map[]) && e.answer(w.calls) == FINE
    ensures var (put, n) := StorePut(w, e, "*", map[], true);
            put.None? && n.presets == Some(map["*" := map[]]) && n.calls == w.calls + 1
  {
    GlobalName();
    PresetStore.NoValues();
    hide Trim;
    hide PresetFile.ValidName;
    hide PresetStore.Acceptable;
    hide PresetStore.Canonicalized;
    hide PresetRender.Stored;
    var none: Presets := map[];
    var values: PresetFile.Values := map[];
    assert (none - {"*"})["*" := values] == map["*" := values];
  }

  lemma GlobalCreationStays()
    ensures var (r, n) := PutPreset(NO_PRESETS, StopFails(), "*", map[], true);
            r.Err? && n.presets == Some(map["*" := map[]])
  {
    hide StorePut;
    hide StoreDelete;
    hide PresetFile.ValidName;
    var e := StopFails();
    var w1 := RouterRefresh.Capture(NO_PRESETS, e).1;
    assert w1.calls == 2 && w1.presets == NO_PRESETS.presets;
    GlobalPut(w1, e);
    var w2 := StorePut(w1, e, "*", map[], true).1;
    var w3 := StoreGet(w2, e, "*").1;
    assert w3.calls == 4;
    var (refreshed, w4) := RouterRefresh.Refresh(w3, e);
    assert refreshed.Err? && w4.calls == 7 && w4.presets == w3.presets;
    GlobalName();
    StoreDeleteGuard(w4, e, "*");
    StoreDeleteExact(w4, e, "*");
  }
}
