/** What the control manager acts on: two stores, a router and its runtime, any of which may fail at any call. */
module ControlWorld {
  import opened Wrappers
  import opened ConfigLists
  import opened Text
  import PresetFile
  import PresetStore

  type Presets = PresetFile.Sections

  /** The references to presets in `config.yaml`. An empty default is no reference. */
  datatype Refs = Refs(defaultPreset: string, autostart: seq<string>)

  datatype Model = Model(id: string, state: string)

  datatype Error = Invalid | Conflict | NotFound | Failed

  /** The answer to one outside call; each kind of call looks at the part that concerns it. */
  datatype Answer = Answer(ok: bool, stopped: bool, models: seq<Model>, disk: PresetStore.Disk)

  /** Which parts are configured, the answers to all the calls to come, and what paths mean. */
  datatype Env = Env(
    hasPresets: bool,
    hasRouter: bool,
    hasConfig: bool,
    hasLocalModels: bool,
    modelsMax: nat,
    answer: nat -> Answer,
    canonical: string -> string,
    contains: (string, string) -> bool,
    ready: PresetFile.Values -> bool)

  datatype Effect =
    | Stored(presets: Option<Presets>, refs: Refs)
    | StopCalled(ok: bool)
    | StartCalled(ok: bool)
    | ReloadCalled(ok: bool)
    | LoadCalled(name: string, ok: bool)
    | FileDeleted(path: string)

  /** `presets` is what `models.ini` says, None when it is not readable.
      `log` lists the effects so far; after every call of a store it holds what both stores contain. */
  datatype World = World(presets: Option<Presets>, refs: Refs, calls: nat, log: seq<Effect>)

  function Tick(w: World): World { w.(calls := w.calls + 1) }

  function Logged(w: World, effect: Effect): World { w.(log := w.log + [effect]) }

  function Recorded(w: World): World { Logged(w, Effect.Stored(w.presets, w.refs)) }

  // ---------- the stores ----------

  function MapError(error: Option<PresetStore.Error>): Option<Error> {
    match error
    case None => None
    case Some(Invalid) => Some(Invalid)
    case Some(Exists) => Some(Conflict)
    case Some(NotFound) => Some(NotFound)
    case Some(Io) => Some(Failed)
  }

  /** `presets.Put`, by what it does to what the file says. */
  function StorePut(w: World, e: Env, name: string, values: PresetFile.Values, createOnly: bool): (Option<Error>, World) {
    var (next, error) := PresetStore.ApplyState(w.presets, PresetStore.Op.Put(name, values, createOnly, e.answer(w.calls).disk));
    (MapError(error), Recorded(Tick(w.(presets := next))))
  }

  function StoreDelete(w: World, e: Env, name: string): (Option<Error>, World) {
    var (next, error) := PresetStore.ApplyState(w.presets, PresetStore.Op.Delete(name, e.answer(w.calls).disk));
    (MapError(error), Recorded(Tick(w.(presets := next))))
  }

  function StoreGet(w: World, e: Env, name: string): (Result<PresetFile.Values, Error>, World) {
    (if e.answer(w.calls).disk.readFails then Err(Failed)
     else if w.presets.None? then Err(Invalid)
     else if name in w.presets.value then Ok(w.presets.value[name])
     else Err(NotFound), Tick(w))
  }

  /** `presets.List`: every section but the one that applies to all. */
  function StoreList(w: World, e: Env): (Result<Presets, Error>, World) {
    (if e.answer(w.calls).disk.readFails then Err(Failed)
     else if w.presets.None? then Err(Invalid)
     else Ok(w.presets.value - {"*"}), Tick(w))
  }

  // ---------- the router and its runtime ----------

  /** Some(true) when the runtime is stopped; None when its status cannot be had. */
  function Status(w: World, e: Env): (Option<bool>, World) {
    var a := e.answer(w.calls);
    (if a.ok then Some(a.stopped) else None, Tick(w))
  }

  function ListModels(w: World, e: Env): (Option<seq<Model>>, World) {
    var a := e.answer(w.calls);
    (if a.ok then Some(a.models) else None, Tick(w))
  }

  function Reload(w: World, e: Env): (Option<seq<Model>>, World) {
    var a := e.answer(w.calls);
    (if a.ok then Some(a.models) else None, Logged(Tick(w), ReloadCalled(a.ok)))
  }

  function Load(w: World, e: Env, name: string): (bool, World) {
    var a := e.answer(w.calls);
    (a.ok, Logged(Tick(w), LoadCalled(name, a.ok)))
  }

  function StopRouter(w: World, e: Env): (bool, World) {
    var a := e.answer(w.calls);
    (a.ok, Logged(Tick(w), StopCalled(a.ok)))
  }

  function StartRouter(w: World, e: Env): (bool, World) {
    var a := e.answer(w.calls);
    (a.ok, Logged(Tick(w), StartCalled(a.ok)))
  }

  // ---------- references ----------

  predicate Has(presets: Option<Presets>, name: string) {
    presets.Some? && name in presets.value
  }

  function Minus(presets: Option<Presets>, names: set<string>): Option<Presets> {
    if presets.None? then None else Some(presets.value - names)
  }

  /** Every default and autostart reference names an existing preset. */
  predicate RefsOk(presets: Option<Presets>, refs: Refs) {
    && (refs.defaultPreset != "" ==> Has(presets, refs.defaultPreset))
    && forall n :: n in refs.autostart ==> Has(presets, n)
  }

  /** The references were right after every store call so far. */
  ghost predicate LogSafe(log: seq<Effect>) {
    forall i :: 0 <= i < |log| && log[i].Stored? ==> RefsOk(log[i].presets, log[i].refs)
  }

  /** The names of a readable file are valid and have no space around them. */
  ghost predicate Named(presets: Option<Presets>) {
    presets.Some? ==> forall n :: n in presets.value ==> PresetFile.ValidName(n) && Trim(n) == n
  }

  ghost predicate Safe(w: World) {
    Named(w.presets) && RefsOk(w.presets, w.refs) && LogSafe(w.log)
  }

  predicate Referenced(refs: Refs, name: string) {
    name == refs.defaultPreset || name in refs.autostart
  }

  /** The references that are left when some names are taken out. */
  function Cleaned(refs: Refs, names: set<string>): Refs {
    Refs(if refs.defaultPreset in names then "" else refs.defaultPreset, Without(refs.autostart, names))
  }
}
