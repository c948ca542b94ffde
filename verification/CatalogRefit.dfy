/** The model catalog: building a listing for a machine, and refitting a cached listing to another one. */
module CatalogRefit {
  import opened Wrappers
  import opened Sorting
  import opened CatalogFit

  /** A file as the catalog service and the disk describe it. */
  datatype RawFile = RawFile(filename: string, quant: string, size: int, exists_: bool)

  /** `appeal` is the part of the score that downloads, likes and age give at a fixed time. */
  datatype Source = Source(id: string, appeal: real, files: seq<RawFile>)

  datatype Model = Model(id: string, appeal: real, files: seq<File>, best: Option<File>, fit: Fit, score: real)

  datatype Listing = Listing(machine: Machine, models: seq<Model>)

  datatype MinFit = OnlyFits | AtLeastMarginal | Every

  datatype Params = Params(minFit: MinFit, localOnly: bool)

  type Comfort = int -> int

  // ---------- building ----------

  function FreshFiles(raws: seq<RawFile>): (files: seq<File>)
    ensures |files| == |raws|
  {
    if raws == [] then []
    else [File(raws[0].filename, raws[0].quant, raws[0].size, raws[0].exists_, 0, 0, Unrated, NoReason)] + FreshFiles(raws[1..])
  }

  function FitFiles(comfort: Comfort, files: seq<File>, m: Machine): (fitted: seq<File>)
    ensures |fitted| == |files|
  {
    if files == [] then [] else [EstimateFile(comfort, files[0], m)] + FitFiles(comfort, files[1..], m)
  }

  function Score(level: Level, best: File, appeal: real): real {
    (FitRank(level) * 1000 + (if best.exists_ then 500 else 0) + QuantRank(best.quant) * 20) as real + appeal
  }

  /** A model with its best file, fit and score worked out from estimated files. */
  function Rated(comfort: Comfort, id: string, appeal: real, files: seq<File>, m: Machine): Model
    requires files != []
  {
    var best := BestOf(files);
    var fit := EstimateFit(comfort, best.ram, m);
    Model(id, appeal, files, Some(best), fit, Score(fit.level, best, appeal))
  }

  function PassesMinFit(level: Level, minFit: MinFit): bool {
    match minFit
    case OnlyFits => level == Fits
    case AtLeastMarginal => level == Fits || level == Marginal
    case Every => true
  }

  function FilesFor(comfort: Comfort, source: Source, m: Machine): (files: seq<File>)
    ensures |files| == |source.files|
  {
    FitFiles(comfort, FreshFiles(source.files), m)
  }

  /** Whether a source is listed at all. */
  predicate Kept(comfort: Comfort, params: Params, source: Source, m: Machine) {
    var files := FilesFor(comfort, source, m);
    files != [] && PassesMinFit(BestOf(files).level, params.minFit) && (params.localOnly ==> BestOf(files).exists_)
  }

  function KeptSources(comfort: Comfort, params: Params, sources: seq<Source>, m: Machine): (kept: seq<Source>)
    ensures forall s :: s in kept <==> s in sources && Kept(comfort, params, s, m)
    ensures forall s :: s in kept ==> s.files != []
  {
    if sources == [] then []
    else (if Kept(comfort, params, sources[0], m) then [sources[0]] else []) + KeptSources(comfort, params, sources[1..], m)
  }

  function ModelsOf(comfort: Comfort, sources: seq<Source>, m: Machine): (models: seq<Model>)
    requires forall s :: s in sources ==> s.files != []
    ensures |models| == |sources|
  {
    if sources == [] then []
    else [Rated(comfort, sources[0].id, sources[0].appeal, FilesFor(comfort, sources[0], m), m)] + ModelsOf(comfort, sources[1..], m)
  }

  /** The higher score first, then the smaller id. */
  predicate Ahead(a: Model, b: Model) {
    a.score > b.score || (a.score == b.score && LexLeq(a.id, b.id))
  }

  function InsertModel(x: Model, models: seq<Model>): seq<Model> {
    if models == [] || Ahead(x, models[0]) then [x] + models else [models[0]] + InsertModel(x, models[1..])
  }

  /** `sort.SliceStable` with the order of the catalog. */
  function SortModels(models: seq<Model>): seq<Model> {
    if models == [] then [] else InsertModel(models[0], SortModels(models[1..]))
  }

  function Build(comfort: Comfort, params: Params, sources: seq<Source>, m: Machine): Listing {
    Listing(m, SortModels(ModelsOf(comfort, KeptSources(comfort, params, sources, m), m)))
  }

  // ---------- refitting ----------

  function RefitModel(comfort: Comfort, model: Model, m: Machine): Model {
    if model.files == [] then model.(best := None, fit := EstimateFit(comfort, 0, m))
    else Rated(comfort, model.id, model.appeal, FitFiles(comfort, model.files, m), m)
  }

  function RefitModels(comfort: Comfort, models: seq<Model>, m: Machine): (fitted: seq<Model>)
    ensures |fitted| == |models|
  {
    if models == [] then [] else [RefitModel(comfort, models[0], m)] + RefitModels(comfort, models[1..], m)
  }

  function Refit(comfort: Comfort, listing: Listing, m: Machine): Listing {
    Listing(m, SortModels(RefitModels(comfort, listing.models, m)))
  }

  // ---------- the loops ----------

  lemma FitFilesAt(comfort: Comfort, files: seq<File>, m: Machine, i: nat)
    requires i < |files|
    ensures FitFiles(comfort, files, m)[i] == EstimateFile(comfort, files[i], m)
  {
    if i > 0 { FitFilesAt(comfort, files[1..], m, i - 1); }
  }

  method EstimateFiles(comfort: Comfort, given: seq<File>, m: Machine) returns (files: seq<File>)
    ensures files == FitFiles(comfort, given, m)
  {
    hide EstimateFile;
    files := given;
    for i := 0 to |given|
      invariant |files| == |given| && files[i..] == given[i..]
      invariant files[..i] == FitFiles(comfort, given, m)[..i]
    {
      FitFilesAt(comfort, given, m, i);
      assert files[i] == files[i..][0];
      files := files[i := EstimateFile(comfort, files[i], m)];
    }
  }

  lemma ModelsOfMore(comfort: Comfort, sources: seq<Source>, s: Source, m: Machine)
    requires s.files != [] && forall t :: t in sources ==> t.files != []
    ensures ModelsOf(comfort, sources + [s], m)
         == ModelsOf(comfort, sources, m) + [Rated(comfort, s.id, s.appeal, FilesFor(comfort, s, m), m)]
  {
    hide Rated;
    if sources != [] {
      assert (sources + [s])[1..] == sources[1..] + [s];
      ModelsOfMore(comfort, sources[1..], s, m);
    }
  }

  lemma KeptMore(comfort: Comfort, params: Params, sources: seq<Source>, s: Source, m: Machine)
    ensures KeptSources(comfort, params, sources + [s], m)
         == if Kept(comfort, params, s, m) then KeptSources(comfort, params, sources, m) + [s]
            else KeptSources(comfort, params, sources, m)
  {
    hide Kept;
    if sources == [] {
      assert sources + [s] == [s];
    } else {
      assert (sources + [s])[1..] == sources[1..] + [s];
      KeptMore(comfort, params, sources[1..], s, m);
    }
  }

  method InsertSorted(x: Model, models: seq<Model>) returns (out: seq<Model>)
    ensures out == InsertModel(x, models)
  {
    hide Ahead;
    hide InsertModel;
    var i := 0;
    assert models[0..] == models;
    while i < |models| && !Ahead(x, models[i])
      invariant i <= |models|
      invariant InsertModel(x, models) == models[..i] + InsertModel(x, models[i..])
    {
      InsertLater(x, models, i);
      i := i + 1;
    }
    InsertHere(x, models[i..]);
    out := models[..i] + ([x] + models[i..]);
  }

  lemma InsertLater(x: Model, models: seq<Model>, i: nat)
    requires i < |models| && !Ahead(x, models[i])
    ensures models[..i] + InsertModel(x, models[i..]) == models[..i + 1] + InsertModel(x, models[i + 1..])
  {
    hide Ahead;
    assert models[i..][1..] == models[i + 1..];
  }

  lemma InsertHere(x: Model, models: seq<Model>)
    requires models == [] || Ahead(x, models[0])
    ensures InsertModel(x, models) == [x] + models
  {}

  method SortCatalogModels(models: seq<Model>) returns (out: seq<Model>)
    ensures out == SortModels(models)
  {
    out := [];
    var i := |models|;
    while i > 0
      invariant 0 <= i <= |models| && out == SortModels(models[i..])
    {
      i := i - 1;
      assert models[i..][1..] == models[i + 1..];
      out := InsertSorted(models[i], out);
    }
    assert models[0..] == models;
  }

  /** `fetchCatalog` over the answers of the catalog service. */
  method FetchCatalog(comfort: Comfort, params: Params, sources: seq<Source>, m: Machine) returns (listing: Listing)
    ensures listing == Build(comfort, params, sources, m)
  {
    hide Rated;
    hide Kept;
    hide PassesMinFit;
    hide BestOf;
    hide FilesFor;
    var models: seq<Model> := [];
    for i := 0 to |sources|
      invariant models == ModelsOf(comfort, KeptSources(comfort, params, sources[..i], m), m)
    {
      var source := sources[i];
      assert sources[..i + 1] == sources[..i] + [source];
      KeptMore(comfort, params, sources[..i], source, m);
      var model := CatalogModel(comfort, params, source, m);
      if model.Some? {
        ModelsOfMore(comfort, KeptSources(comfort, params, sources[..i], m), source, m);
        models := models + [model.value];
      }
    }
    assert sources[..|sources|] == sources;
    models := SortCatalogModels(models);
    listing := Listing(m, models);
  }

  method CatalogModel(comfort: Comfort, params: Params, source: Source, m: Machine) returns (model: Option<Model>)
    ensures model.Some? <==> Kept(comfort, params, source, m)
    ensures model.Some? ==> source.files != []
                            && model.value == Rated(comfort, source.id, source.appeal, FilesFor(comfort, source, m), m)
  {
    hide FreshFiles;
    hide FitFiles;
    hide Best;
    hide EstimateFit;
    var files := EstimateFiles(comfort, FreshFiles(source.files), m);
    if |files| == 0 {
      return None;
    }
    var best := BestFile(files);
    if !PassesMinFit(best.level, params.minFit) || (params.localOnly && !best.exists_) {
      return None;
    }
    var fit := EstimateFit(comfort, best.ram, m);
    return Some(Model(source.id, source.appeal, files, Some(best), fit, Score(fit.level, best, source.appeal)));
  }

  lemma RefitModelsAt(comfort: Comfort, models: seq<Model>, m: Machine, i: nat)
    requires i < |models|
    ensures RefitModels(comfort, models, m)[i] == RefitModel(comfort, models[i], m)
  {
    hide RefitModel;
    if i > 0 { RefitModelsAt(comfort, models[1..], m, i - 1); }
  }

  /** A cached listing, refitted in place. */
  class Cached {
    var machine: Machine
    var models: seq<Model>

    constructor (listing: Listing)
      ensures View() == listing
    {
      machine, models := listing.machine, listing.models;
    }

    ghost function View(): Listing
      reads this
    {
      Listing(machine, models)
    }

    method RefitResult(comfort: Comfort, m: Machine)
      modifies this
      ensures View() == Refit(comfort, old(View()), m)
    {
      hide RefitModel;
      machine := m;
      ghost var given := models;
      for i := 0 to |models|
        invariant |models| == |given| && machine == m && models[i..] == given[i..]
        invariant models[..i] == RefitModels(comfort, given, m)[..i]
      {
        RefitModelsAt(comfort, given, m, i);
        assert models[i] == models[i..][0];
        var model := RefitOne(comfort, models[i], m);
        models := models[i := model];
      }
      assert models == models[..|given|] == RefitModels(comfort, given, m);
      models := SortCatalogModels(models);
    }
  }

  method RefitOne(comfort: Comfort, given: Model, m: Machine) returns (model: Model)
    ensures model == RefitModel(comfort, given, m)
  {
    hide FitFiles;
    hide Best;
    hide EstimateFit;
    var files := EstimateFiles(comfort, given.files, m);
    model := given.(files := files);
    if |files| == 0 {
      model := model.(best := None, fit := EstimateFit(comfort, 0, m));
      return;
    }
    var best := BestFile(files);
    var fit := EstimateFit(comfort, best.ram, m);
    model := model.(best := Some(best), fit := fit);
    model := model.(score := Score(fit.level, best, model.appeal));
  }

  // ---------- refitting agrees with building ----------

  /** The file that refitting leaves where building would leave no video memory estimate. */
  function StaleFile(stale: bool, f: File): File {
    if stale then f.(vram := f.ram) else f
  }

  function StaleFiles(stale: bool, files: seq<File>): (r: seq<File>)
    ensures |r| == |files|
  {
    if files == [] then [] else [StaleFile(stale, files[0])] + StaleFiles(stale, files[1..])
  }

  function StaleModel(stale: bool, model: Model): Model {
    model.(files := StaleFiles(stale, model.files),
           best := if model.best.Some? then Some(StaleFile(stale, model.best.value)) else None)
  }

  function StaleModels(stale: bool, models: seq<Model>): seq<Model> {
    if models == [] then [] else [StaleModel(stale, models[0])] + StaleModels(stale, models[1..])
  }

  lemma {:induction false} FilesRefit(comfort: Comfort, raws: seq<RawFile>, m1: Machine, m2: Machine)
    ensures FitFiles(comfort, FitFiles(comfort, FreshFiles(raws), m1), m2)
         == StaleFiles(m1.hasGpu && !m2.hasGpu, FitFiles(comfort, FreshFiles(raws), m2))
  {
    hide EstimateFit;
    hide Wrap64;
    if raws != [] {
      FilesRefit(comfort, raws[1..], m1, m2);
      assert FreshFiles(raws)[1..] == FreshFiles(raws[1..]);
    }
  }

  lemma {:induction false} BestStale(stale: bool, best: File, rest: seq<File>)
    ensures Best(StaleFile(stale, best), StaleFiles(stale, rest)) == StaleFile(stale, Best(best, rest))
    decreases |rest|
  {
    hide QuantRank;
    hide CompareNames;
    if rest != [] {
      BestStale(stale, if CompareFile(rest[0], best) > 0 then rest[0] else best, rest[1..]);
    }
  }

  lemma RatedStale(comfort: Comfort, id: string, appeal: real, files: seq<File>, m: Machine, stale: bool)
    requires files != []
    ensures Rated(comfort, id, appeal, StaleFiles(stale, files), m) == StaleModel(stale, Rated(comfort, id, appeal, files, m))
  {
    hide EstimateFit;
    hide Best;
    BestStale(stale, files[0], files[1..]);
    assert StaleFiles(stale, files)[1..] == StaleFiles(stale, files[1..]);
  }

  lemma {:induction false} ModelsRefit(comfort: Comfort, sources: seq<Source>, m1: Machine, m2: Machine)
    requires forall s :: s in sources ==> s.files != []
    ensures RefitModels(comfort, ModelsOf(comfort, sources, m1), m2)
         == StaleModels(m1.hasGpu && !m2.hasGpu, ModelsOf(comfort, sources, m2))
  {
    hide Rated;
    hide FitFiles;
    hide FreshFiles;
    hide StaleModel;
    if sources != [] {
      var s := sources[0];
      FilesRefit(comfort, s.files, m1, m2);
      RatedStale(comfort, s.id, s.appeal, FilesFor(comfort, s, m2), m2, m1.hasGpu && !m2.hasGpu);
      RatedKeeps(comfort, s.id, s.appeal, FilesFor(comfort, s, m1), m1);
      ModelsRefit(comfort, sources[1..], m1, m2);
    }
  }

  lemma RatedKeeps(comfort: Comfort, id: string, appeal: real, files: seq<File>, m: Machine)
    requires files != []
    ensures var model := Rated(comfort, id, appeal, files, m); model.id == id && model.appeal == appeal && model.files == files
  {}

  // ---------- sorting does not depend on the order it is given ----------

  lemma AheadTotal(a: Model, b: Model)
    ensures Ahead(a, b) || Ahead(b, a)
    ensures Ahead(a, b) && Ahead(b, a) ==> a.id == b.id
  {
    LexTotal(a.id, b.id);
    if LexLeq(a.id, b.id) && LexLeq(b.id, a.id) { LexAntisymmetric(a.id, b.id); }
  }

  lemma AheadTransitive(a: Model, b: Model, c: Model)
    requires Ahead(a, b) && Ahead(b, c)
    ensures Ahead(a, c)
  {
    if LexLeq(a.id, b.id) && LexLeq(b.id, c.id) { LexTransitive(a.id, b.id, c.id); }
  }

  lemma {:induction false} InsertsCommute(a: Model, b: Model, models: seq<Model>)
    requires a.id != b.id
    ensures InsertModel(a, InsertModel(b, models)) == InsertModel(b, InsertModel(a, models))
  {
    hide Ahead;
    AheadTotal(a, b);
    if models != [] {
      var h := models[0];
      AheadTotal(a, h);
      AheadTotal(b, h);
      if Ahead(a, b) && Ahead(b, h) { AheadTransitive(a, b, h); }
      if Ahead(b, a) && Ahead(a, h) { AheadTransitive(b, a, h); }
      InsertsCommute(a, b, models[1..]);
    }
  }

  predicate DistinctIds(models: seq<Model>) {
    forall i, j :: 0 <= i < j < |models| ==> models[i].id != models[j].id
  }

  lemma {:induction false} RefitInsert(comfort: Comfort, x: Model, models: seq<Model>, m: Machine)
    requires forall y :: y in models ==> y.id != x.id
    ensures SortModels(RefitModels(comfort, InsertModel(x, models), m))
         == InsertModel(RefitModel(comfort, x, m), SortModels(RefitModels(comfort, models, m)))
  {
    hide RefitModel;
    hide Ahead;
    if models == [] {
    } else if Ahead(x, models[0]) {
      assert ([x] + models)[1..] == models;
    } else {
      RefitInsert(comfort, x, models[1..], m);
      var rest := SortModels(RefitModels(comfort, models[1..], m));
      RefitKeepsId(comfort, x, m);
      RefitKeepsId(comfort, models[0], m);
      InsertsCommute(RefitModel(comfort, x, m), RefitModel(comfort, models[0], m), rest);
    }
  }

  lemma RefitKeepsId(comfort: Comfort, x: Model, m: Machine)
    ensures RefitModel(comfort, x, m).id == x.id
  {}

  lemma {:induction false} SortHas(models: seq<Model>, x: Model)
    ensures x in SortModels(models) <==> x in models
  {
    if models != [] {
      SortHas(models[1..], x);
      InsertHas(models[0], SortModels(models[1..]), x);
    }
  }

  lemma {:induction false} InsertHas(y: Model, models: seq<Model>, x: Model)
    ensures x in InsertModel(y, models) <==> x == y || x in models
  {
    hide Ahead;
    if models != [] { InsertHas(y, models[1..], x); }
  }

  /** Refitting a sorted list and sorting again forgets the order there was. */
  lemma {:induction false} RefitSorted(comfort: Comfort, models: seq<Model>, m: Machine)
    requires DistinctIds(models)
    ensures SortModels(RefitModels(comfort, SortModels(models), m)) == SortModels(RefitModels(comfort, models, m))
  {
    hide RefitModel;
    if models != [] {
      RefitSorted(comfort, models[1..], m);
      forall y | y in SortModels(models[1..]) ensures y.id != models[0].id { SortHas(models[1..], y); }
      RefitInsert(comfort, models[0], SortModels(models[1..]), m);
    }
  }

  lemma {:induction false} InsertStale(stale: bool, x: Model, models: seq<Model>)
    ensures InsertModel(StaleModel(stale, x), StaleModels(stale, models)) == StaleModels(stale, InsertModel(x, models))
  {
    hide StaleFiles;
    if models != [] { InsertStale(stale, x, models[1..]); }
  }

  lemma {:induction false} SortStale(stale: bool, models: seq<Model>)
    ensures SortModels(StaleModels(stale, models)) == StaleModels(stale, SortModels(models))
  {
    hide StaleModel;
    hide Ahead;
    if models != [] {
      SortStale(stale, models[1..]);
      InsertStale(stale, models[0], SortModels(models[1..]));
    }
  }

  lemma {:induction false} IdsOfModels(comfort: Comfort, sources: seq<Source>, m: Machine)
    requires forall s :: s in sources ==> s.files != []
    ensures forall i :: 0 <= i < |sources| ==> ModelsOf(comfort, sources, m)[i].id == sources[i].id
  {
    hide FilesFor;
    hide BestOf;
    if sources != [] { IdsOfModels(comfort, sources[1..], m); }
  }

  predicate DistinctSources(sources: seq<Source>) {
    forall i, j :: 0 <= i < j < |sources| ==> sources[i].id != sources[j].id
  }

  lemma {:induction false} KeptDistinct(comfort: Comfort, params: Params, sources: seq<Source>, m: Machine)
    requires DistinctSources(sources)
    ensures DistinctSources(KeptSources(comfort, params, sources, m))
  {
    hide Kept;
    if sources != [] {
      KeptDistinct(comfort, params, sources[1..], m);
      var rest := KeptSources(comfort, params, sources[1..], m);
      forall i | 0 <= i < |rest| ensures rest[i].id != sources[0].id { assert rest[i] in sources[1..]; }
    }
  }

  /** A refitted cache is what building lists for the sources kept before, with stale estimates in it. */
  lemma RefitIsStaleBuild(comfort: Comfort, params: Params, sources: seq<Source>, m1: Machine, m2: Machine)
    requires DistinctSources(sources)
    ensures Refit(comfort, Build(comfort, params, sources, m1), m2)
         == Listing(m2, StaleModels(m1.hasGpu && !m2.hasGpu,
                                    SortModels(ModelsOf(comfort, KeptSources(comfort, params, sources, m1), m2))))
  {
    hide ModelsOf;
    hide RefitModels;
    hide SortModels;
    var kept := KeptSources(comfort, params, sources, m1);
    KeptDistinct(comfort, params, sources, m1);
    IdsOfModels(comfort, kept, m1);
    RefitSorted(comfort, ModelsOf(comfort, kept, m1), m2);
    ModelsRefit(comfort, kept, m1, m2);
    SortStale(m1.hasGpu && !m2.hasGpu, ModelsOf(comfort, kept, m2));
  }

  // ---------- the exact conditions ----------

  function Forget(models: seq<Model>): (r: seq<Model>)
    ensures |r| == |models|
    ensures forall i :: 0 <= i < |r| ==> r[i].id == models[i].id
  {
    if models == [] then [] else [ForgetModel(models[0])] + Forget(models[1..])
  }

  function ForgetFiles(files: seq<File>): seq<File> {
    if files == [] then [] else [files[0].(vram := 0)] + ForgetFiles(files[1..])
  }

  /** A model without the video memory estimates of its files. */
  function ForgetModel(model: Model): Model {
    model.(files := ForgetFiles(model.files),
           best := if model.best.Some? then Some(model.best.value.(vram := 0)) else None)
  }

  lemma {:induction false} ForgetStale(stale: bool, models: seq<Model>)
    ensures Forget(StaleModels(stale, models)) == Forget(models)
  {
    hide StaleFiles;
    hide ForgetFiles;
    if models != [] {
      ForgetStaleFiles(stale, models[0].files);
      ForgetStale(stale, models[1..]);
    }
  }

  lemma {:induction false} ForgetStaleFiles(stale: bool, files: seq<File>)
    ensures ForgetFiles(StaleFiles(stale, files)) == ForgetFiles(files)
  {
    if files != [] { ForgetStaleFiles(stale, files[1..]); }
  }

  /** The two machines keep the same sources. */
  ghost predicate SameKept(comfort: Comfort, params: Params, sources: seq<Source>, m1: Machine, m2: Machine) {
    forall s :: s in sources ==> Kept(comfort, params, s, m1) == Kept(comfort, params, s, m2)
  }

  /** No listed file has any memory estimate, so that a stale one cannot be told apart. */
  predicate NothingEstimated(sources: seq<Source>) {
    forall s, f :: s in sources && f in s.files ==> Required(f.size) == 0
  }

  lemma {:induction false} SameKeptSources(comfort: Comfort, params: Params, sources: seq<Source>, m1: Machine, m2: Machine)
    requires SameKept(comfort, params, sources, m1, m2)
    ensures KeptSources(comfort, params, sources, m1) == KeptSources(comfort, params, sources, m2)
  {
    hide Kept;
    if sources != [] {
      assert forall s :: s in sources[1..] ==> s in sources;
      assert sources[0] in sources;
      SameKeptSources(comfort, params, sources[1..], m1, m2);
    }
  }

  lemma ListedIds(comfort: Comfort, sources: seq<Source>, m: Machine, id: string)
    requires forall s :: s in sources ==> s.files != []
    ensures (exists x :: x in SortModels(ModelsOf(comfort, sources, m)) && x.id == id)
       <==> (exists s :: s in sources && s.id == id)
  {
    hide Kept;
    hide ModelsOf;
    hide SortModels;
    var models := ModelsOf(comfort, sources, m);
    IdsOfModels(comfort, sources, m);
    forall x ensures x in SortModels(models) <==> x in models { SortHas(models, x); }
    if s :| s in sources && s.id == id {
      var i :| 0 <= i < |sources| && sources[i] == s;
      assert models[i] in models;
    }
    if x :| x in models && x.id == id {
      var i :| 0 <= i < |models| && models[i] == x;
      assert sources[i] in sources;
    }
  }

  /** Different sources kept show as different ids. */
  lemma IdsTell(comfort: Comfort, params: Params, sources: seq<Source>, m1: Machine, m2: Machine)
    requires DistinctSources(sources)
    requires Forget(SortModels(ModelsOf(comfort, KeptSources(comfort, params, sources, m1), m2)))
          == Forget(SortModels(ModelsOf(comfort, KeptSources(comfort, params, sources, m2), m2)))
    ensures SameKept(comfort, params, sources, m1, m2)
  {
    hide Kept;
    hide ModelsOf;
    hide SortModels;
    hide Forget;
    var kept1, kept2 := KeptSources(comfort, params, sources, m1), KeptSources(comfort, params, sources, m2);
    forall s | s in sources ensures Kept(comfort, params, s, m1) == Kept(comfort, params, s, m2) {
      ListedIds(comfort, kept1, m2, s.id);
      ListedIds(comfort, kept2, m2, s.id);
      ForgetIds(SortModels(ModelsOf(comfort, kept1, m2)), SortModels(ModelsOf(comfort, kept2, m2)), s.id);
      assert forall r :: r in sources && r.id == s.id ==> r == s;
      assert s in kept1 <==> exists r :: r in kept1 && r.id == s.id;
      assert s in kept2 <==> exists r :: r in kept2 && r.id == s.id;
    }
  }

  lemma ForgetIds(a: seq<Model>, b: seq<Model>, id: string)
    requires Forget(a) == Forget(b)
    ensures (exists x :: x in a && x.id == id) <==> (exists x :: x in b && x.id == id)
  {
    hide Forget;
    assert |a| == |b|;
    if x :| x in a && x.id == id {
      var i :| 0 <= i < |a| && a[i] == x;
      assert b[i] in b && b[i].id == Forget(b)[i].id;
    }
    if x :| x in b && x.id == id {
      var i :| 0 <= i < |b| && b[i] == x;
      assert a[i] in a && a[i].id == Forget(a)[i].id;
    }
  }

  lemma {:induction false} StaleSame(models: seq<Model>)
    ensures StaleModels(true, models) == models <==> forall x :: x in models ==> StaleModel(true, x) == x
  {
    hide StaleModel;
    if models != [] {
      StaleSame(models[1..]);
      assert models == [models[0]] + models[1..];
      assert forall x :: x in models <==> x == models[0] || x in models[1..];
    }
  }

  lemma {:induction false} StaleSameFiles(comfort: Comfort, raws: seq<RawFile>, m: Machine)
    requires !m.hasGpu
    ensures var files := FitFiles(comfort, FreshFiles(raws), m);
            StaleFiles(true, files) == files <==> forall f :: f in raws ==> Required(f.size) == 0
  {
    hide EstimateFit;
    hide Wrap64;
    if raws != [] {
      StaleSameFiles(comfort, raws[1..], m);
      assert forall f :: f in raws <==> f == raws[0] || f in raws[1..];
      var files := FitFiles(comfort, FreshFiles(raws), m);
      assert FreshFiles(raws)[1..] == FreshFiles(raws[1..]);
      assert files == [files[0]] + files[1..];
    }
  }

  lemma {:induction false} ModelsNamed(comfort: Comfort, sources: seq<Source>, m: Machine, x: Model)
    requires forall s :: s in sources ==> s.files != []
    ensures x in ModelsOf(comfort, sources, m)
       <==> exists s :: s in sources && x == Rated(comfort, s.id, s.appeal, FilesFor(comfort, s, m), m)
  {
    hide Rated;
    hide FilesFor;
    if sources != [] {
      ModelsNamed(comfort, sources[1..], m, x);
      assert forall s :: s in sources <==> s == sources[0] || s in sources[1..];
    }
  }

  lemma StaleSameModel(comfort: Comfort, s: Source, m: Machine)
    requires !m.hasGpu && s.files != []
    ensures var x := Rated(comfort, s.id, s.appeal, FilesFor(comfort, s, m), m);
            StaleModel(true, x) == x <==> forall f :: f in s.files ==> Required(f.size) == 0
  {
    hide EstimateFit;
    hide Required;
    hide FitFiles;
    hide FreshFiles;
    hide StaleFiles;
    hide Best;
    var files := FilesFor(comfort, s, m);
    StaleSameFiles(comfort, s.files, m);
    BestStale(true, files[0], files[1..]);
    if StaleFiles(true, files) == files { StaleHead(true, files); }
  }

  lemma StaleHead(stale: bool, files: seq<File>)
    requires files != [] && StaleFiles(stale, files) == files
    ensures StaleFile(stale, files[0]) == files[0] && StaleFiles(stale, files[1..]) == files[1..]
  {}

  lemma StaleSameSorted(comfort: Comfort, sources: seq<Source>, m: Machine)
    requires !m.hasGpu && forall s :: s in sources ==> s.files != []
    ensures var models := SortModels(ModelsOf(comfort, sources, m));
            StaleModels(true, models) == models <==> NothingEstimated(sources)
  {
    hide Required;
    hide Rated;
    hide FilesFor;
    hide StaleModel;
    hide ModelsOf;
    hide SortModels;
    hide StaleModels;
    var models := ModelsOf(comfort, sources, m);
    StaleSame(SortModels(models));
    forall x ensures x in SortModels(models) <==> x in models { SortHas(models, x); }
    forall x ensures x in models <==> exists s :: s in sources && x == Rated(comfort, s.id, s.appeal, FilesFor(comfort, s, m), m) {
      ModelsNamed(comfort, sources, m, x);
    }
    forall s | s in sources
      ensures Rated(comfort, s.id, s.appeal, FilesFor(comfort, s, m), m) in models
      ensures StaleModel(true, Rated(comfort, s.id, s.appeal, FilesFor(comfort, s, m), m)) == Rated(comfort, s.id, s.appeal, FilesFor(comfort, s, m), m)
         <==> forall f :: f in s.files ==> Required(f.size) == 0
    {
      StaleSameModel(comfort, s, m);
    }
  }

  lemma StaleNot(models: seq<Model>)
    ensures StaleModels(false, models) == models
  {
    if models != [] {
      StaleNot(models[1..]);
      StaleNotFiles(models[0].files);
    }
  }

  lemma StaleNotFiles(files: seq<File>)
    ensures StaleFiles(false, files) == files
  {}

  /** Refitting a cached listing gives what building for the new machine gives, in order, files, best file, fit
      and score, exactly when both machines keep the same sources. The video memory estimates agree too exactly
      when no GPU went away, or when nothing listed has an estimate. */
  lemma RefitAgrees(comfort: Comfort, params: Params, sources: seq<Source>, m1: Machine, m2: Machine)
    requires DistinctSources(sources)
    ensures var cached, built := Refit(comfort, Build(comfort, params, sources, m1), m2), Build(comfort, params, sources, m2);
            var same := SameKept(comfort, params, sources, m1, m2);
            && (Forget(cached.models) == Forget(built.models) <==> same)
            && (cached == built <==> same && (m1.hasGpu && !m2.hasGpu ==> NothingEstimated(KeptSources(comfort, params, sources, m2))))
  {
    hide Kept;
    hide ModelsOf;
    hide SortModels;
    hide StaleModels;
    hide Forget;
    hide RefitModels;
    hide NothingEstimated;
    RefitIsStaleBuild(comfort, params, sources, m1, m2);
    var stale := m1.hasGpu && !m2.hasGpu;
    var kept1, kept2 := KeptSources(comfort, params, sources, m1), KeptSources(comfort, params, sources, m2);
    var before, built := SortModels(ModelsOf(comfort, kept1, m2)), SortModels(ModelsOf(comfort, kept2, m2));
    ForgetStale(stale, before);
    if SameKept(comfort, params, sources, m1, m2) {
      SameKeptSources(comfort, params, sources, m1, m2);
      if stale { StaleSameSorted(comfort, kept2, m2); } else { StaleNot(built); }
    } else if Forget(before) == Forget(built) {
      IdsTell(comfort, params, sources, m1, m2);
    }
  }

  /** Without a minimum fit every machine keeps the same sources, whether or not only local models are asked for. */
  lemma EveryFitKeepsAll(comfort: Comfort, params: Params, sources: seq<Source>, m1: Machine, m2: Machine)
    requires params.minFit == Every
    ensures SameKept(comfort, params, sources, m1, m2)
  {
    hide Best;
    hide EstimateFile;
    forall s | s in sources ensures Kept(comfort, params, s, m1) == Kept(comfort, params, s, m2) {
      if s.files != [] {
        LocalBest(comfort, s, m1);
        LocalBest(comfort, s, m2);
      }
    }
  }

  lemma {:induction false} FitExists(comfort: Comfort, raws: seq<RawFile>, m: Machine)
    ensures (exists f :: f in FitFiles(comfort, FreshFiles(raws), m) && f.exists_) <==> (exists f :: f in raws && f.exists_)
  {
    hide EstimateFit;
    if raws != [] {
      FitExists(comfort, raws[1..], m);
      var files := FitFiles(comfort, FreshFiles(raws), m);
      assert FreshFiles(raws)[1..] == FreshFiles(raws[1..]);
      assert files[0].exists_ == raws[0].exists_;
      assert forall f :: f in raws <==> f == raws[0] || f in raws[1..];
      assert forall f :: f in files <==> f == files[0] || f in files[1..];
    }
  }

  lemma LocalBest(comfort: Comfort, s: Source, m: Machine)
    requires s.files != []
    ensures BestOf(FilesFor(comfort, s, m)).exists_ <==> exists f :: f in s.files && f.exists_
  {
    hide FitFiles;
    hide FreshFiles;
    hide Best;
    var files := FilesFor(comfort, s, m);
    FitExists(comfort, s.files, m);
    BestExists(files[0], files[1..]);
    assert forall f :: f in files <==> f == files[0] || f in files[1..];
  }

  // ---------- refitting twice ----------

  lemma {:induction false} RefitTwiceFiles(comfort: Comfort, files: seq<File>, m: Machine)
    ensures FitFiles(comfort, FitFiles(comfort, files, m), m) == FitFiles(comfort, files, m)
  {
    hide EstimateFit;
    hide Wrap64;
    if files != [] { RefitTwiceFiles(comfort, files[1..], m); }
  }

  lemma RefitTwiceModel(comfort: Comfort, x: Model, m: Machine)
    ensures RefitModel(comfort, RefitModel(comfort, x, m), m) == RefitModel(comfort, x, m)
  {
    hide EstimateFit;
    hide FitFiles;
    hide Best;
    RefitTwiceFiles(comfort, x.files, m);
  }

  lemma {:induction false} RefitTwiceModels(comfort: Comfort, models: seq<Model>, m: Machine)
    requires forall x :: x in models ==> RefitModel(comfort, x, m) == x
    ensures RefitModels(comfort, models, m) == models
  {
    hide RefitModel;
    if models != [] { RefitTwiceModels(comfort, models[1..], m); }
  }

  predicate InOrder(models: seq<Model>) {
    forall i, j :: 0 <= i < j < |models| ==> Ahead(models[i], models[j])
  }

  lemma {:induction false} InsertOrders(x: Model, models: seq<Model>)
    requires InOrder(models)
    ensures InOrder(InsertModel(x, models))
  {
    hide Ahead;
    if models == [] {
    } else if Ahead(x, models[0]) {
      forall j | 0 < j < |models| ensures Ahead(x, models[j]) { AheadTransitive(x, models[0], models[j]); }
    } else {
      AheadTotal(x, models[0]);
      InsertOrders(x, models[1..]);
      var rest := InsertModel(x, models[1..]);
      forall j | 0 <= j < |rest| ensures Ahead(models[0], rest[j]) {
        InsertHas(x, models[1..], rest[j]);
        assert rest[j] in rest;
      }
    }
  }

  lemma {:induction false} SortOrders(models: seq<Model>)
    ensures InOrder(SortModels(models))
  {
    if models != [] {
      SortOrders(models[1..]);
      InsertOrders(models[0], SortModels(models[1..]));
    }
  }

  lemma {:induction false} SortOrdered(models: seq<Model>)
    requires InOrder(models)
    ensures SortModels(models) == models
  {
    hide Ahead;
    if |models| > 0 { SortOrdered(models[1..]); }
  }

  lemma {:induction false} RefitModelsHas(comfort: Comfort, models: seq<Model>, m: Machine, x: Model)
    requires x in RefitModels(comfort, models, m)
    ensures RefitModel(comfort, x, m) == x
  {
    hide RefitModel;
    RefitTwiceModel(comfort, models[0], m);
    if x != RefitModel(comfort, models[0], m) { RefitModelsHas(comfort, models[1..], m, x); }
  }

  /** Refitting to the same machine again changes nothing, whatever the listing was, and leaves it in order. */
  lemma RefitIdempotent(comfort: Comfort, listing: Listing, m: Machine)
    ensures var once := Refit(comfort, listing, m); InOrder(once.models) && Refit(comfort, once, m) == once
  {
    hide Ahead;
    hide RefitModel;
    hide SortModels;
    hide RefitModels;
    var fitted := RefitModels(comfort, listing.models, m);
    var once := SortModels(fitted);
    SortOrders(fitted);
    forall x | x in once ensures RefitModel(comfort, x, m) == x {
      SortHas(fitted, x);
      RefitModelsHas(comfort, listing.models, m, x);
    }
    RefitTwiceModels(comfort, once, m);
    SortOrdered(once);
  }

  // ---------- listings that a refit does not bring up to date ----------

  const SMALL_FILE := RawFile("f.gguf", "Q4_K_M", 1, false)
  const ONE_SOURCE := [Source("m", 0.0, [SMALL_FILE])]

  lemma SmallFile(comfort: Comfort, m: Machine)
    ensures Required(1) == OVERHEAD_BYTES + 1
    ensures |FilesFor(comfort, ONE_SOURCE[0], m)| == 1
    ensures BestOf(FilesFor(comfort, ONE_SOURCE[0], m)).level == EstimateFit(comfort, OVERHEAD_BYTES + 1, m).level
  {
    var raw := FreshFiles([SMALL_FILE]);
    assert raw[1..] == [];
    assert [SMALL_FILE][1..] == [];
    var files := FitFiles(comfort, raw, m);
    assert files[1..] == [];
    assert ONE_SOURCE[0].files == [SMALL_FILE];
  }

  /** Listed for a machine with a GPU and refitted to one without: the video memory estimate stays, and nothing else differs. */
  lemma GpuGoneKeepsEstimate(comfort: Comfort)
    ensures var before, after := Machine(0, 1, true), Machine(0, 0, false);
            var params := Params(Every, false);
            var cached := Refit(comfort, Build(comfort, params, ONE_SOURCE, before), after);
            var built := Build(comfort, params, ONE_SOURCE, after);
            cached != built && Forget(cached.models) == Forget(built.models)
  {
    hide Refit;
    hide Build;
    hide Forget;
    var before, after := Machine(0, 1, true), Machine(0, 0, false);
    var params := Params(Every, false);
    SmallFile(comfort, after);
    EveryFitKeepsAll(comfort, params, ONE_SOURCE, before, after);
    hide SameKept;
    RefitAgrees(comfort, params, ONE_SOURCE, before, after);
    assert ONE_SOURCE[0] in KeptSources(comfort, params, ONE_SOURCE, after);
    assert SMALL_FILE in ONE_SOURCE[0].files;
  }

  /** Listed for a large machine, with only fitting models asked for, and refitted to a small one: the model stays listed. */
  lemma SmallerMachineKeepsModel()
    ensures var comfort := c => c * 9 / 10;
            var before, after := Machine(0x100_0000_0000, 0, false), Machine(1, 0, false);
            var params := Params(OnlyFits, false);
            var cached := Refit(comfort, Build(comfort, params, ONE_SOURCE, before), after);
            Forget(cached.models) != Forget(Build(comfort, params, ONE_SOURCE, after).models)
  {
    hide Refit;
    hide Build;
    hide Forget;
    var comfort := c => c * 9 / 10;
    var before, after := Machine(0x100_0000_0000, 0, false), Machine(1, 0, false);
    var params := Params(OnlyFits, false);
    SmallFile(comfort, before);
    SmallFile(comfort, after);
    assert comfort(0x100_0000_0000) >= OVERHEAD_BYTES + 1;
    assert Kept(comfort, params, ONE_SOURCE[0], before) && !Kept(comfort, params, ONE_SOURCE[0], after);
    hide Kept;
    RefitAgrees(comfort, params, ONE_SOURCE, before, after);
    assert ONE_SOURCE[0] in ONE_SOURCE;
  }
}
