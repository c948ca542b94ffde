/** What the entries of a catalog listing say of the machine it was made for. */
module CatalogLevels {
  import opened Wrappers
  import opened Sorting
  import opened CatalogFit
  import opened CatalogRefit

  // ---------- the level of a size ----------

  /** The memory a file takes: its size and 512 MiB, in 64 bits. */
  lemma RequiredExact(size: int)
    requires -0x8000_0000_0000_0000 <= size < 0x8000_0000_0000_0000
    ensures Required(size) == if size < 0x8000_0000_0000_0000 - 536870912 then size + 536870912 else size + 536870912 - 0x1_0000_0000_0000_0000
  {}

  /** The capacity that counts is the video memory of a machine with a GPU, and its RAM otherwise. A size fits up to the
      comfortable part of it, is marginal up to all of it, and too large beyond; without both numbers it is unknown. */
  ghost predicate LevelFor(comfort: Comfort, required: int, m: Machine, level: Level) {
    var capacity := if m.hasGpu then m.vram else m.ram;
    && (level == Fits <==> 0 < required && 0 < capacity && required <= comfort(capacity))
    && (level == Marginal <==> 0 < required <= capacity && comfort(capacity) < required)
    && (level == TooLarge <==> 0 < capacity < required && comfort(capacity) < required)
    && (level == Unknown <==> required <= 0 || capacity <= 0)
  }

  lemma LevelExact(comfort: Comfort, required: int, m: Machine)
    ensures var capacity := if m.hasGpu then m.vram else m.ram;
            var level := EstimateFit(comfort, required, m).level;
            && LevelFor(comfort, required, m, level)
            && (comfort(capacity) <= capacity ==>
                  && (level in {Fits, Marginal} <==> 0 < required <= capacity)
                  && (level == TooLarge <==> 0 < capacity < required))
  {}

  /** The numbers and the reason that go with a level. */
  lemma FitExact(comfort: Comfort, required: int, m: Machine)
    ensures var fit := EstimateFit(comfort, required, m);
            && fit.requiredRam == required && fit.availableRam == m.ram
            && (if m.hasGpu then fit.requiredVram == required && fit.availableVram == m.vram else fit.requiredVram == fit.availableVram == 0)
            && (fit.level == Fits <==> fit.reason == Within(m.hasGpu, required))
            && (fit.level == Marginal <==> fit.reason == Close(m.hasGpu, required))
            && (fit.level == TooLarge <==> fit.reason == Exceeds(m.hasGpu, required))
            && (fit.level == Unknown <==> fit.reason == UnknownCapacity)
  {}

  // ---------- the listing ----------

  /** The estimate of a file, made for its own size and this machine. */
  ghost predicate FileRated(comfort: Comfort, f: File, m: Machine) {
    f.ram == Required(f.size) && LevelFor(comfort, f.ram, m, f.level) && (m.hasGpu ==> f.vram == f.ram)
  }

  function Points(level: Level): int {
    match level
    case Fits => 4000
    case Marginal => 3000
    case Unknown => 2000
    case TooLarge => 1000
    case Unrated => 0
  }

  /** A model's files have the levels of their sizes; its fit is that of its best file, and its score counts the level
      before the presence on disk and that before the quantisation. */
  ghost predicate ModelRated(comfort: Comfort, x: Model, m: Machine) {
    && (forall f :: f in x.files ==> FileRated(comfort, f, m))
    && (x.files == [] ==> x.best == None && x.fit.level == Unknown)
    && (x.files != [] ==>
          && x.best == Some(BestOf(x.files)) && x.best.value in x.files
          && x.fit.level == x.best.value.level && x.fit.requiredRam == x.best.value.ram && x.fit.availableRam == m.ram
          && x.score == (Points(x.fit.level) + (if x.best.value.exists_ then 500 else 0) + 20 * QuantRank(x.best.value.quant)) as real + x.appeal)
  }

  lemma EstimatedFile(comfort: Comfort, f: File, m: Machine)
    ensures FileRated(comfort, EstimateFile(comfort, f, m), m)
    ensures EstimateFile(comfort, f, m).filename == f.filename && EstimateFile(comfort, f, m).quant == f.quant
    ensures EstimateFile(comfort, f, m).size == f.size && EstimateFile(comfort, f, m).exists_ == f.exists_
  {
    LevelExact(comfort, Required(f.size), m);
    hide Required;
  }

  lemma {:induction false} EstimatedFiles(comfort: Comfort, files: seq<File>, m: Machine)
    ensures forall f :: f in FitFiles(comfort, files, m) ==> FileRated(comfort, f, m)
    decreases |files|
  {
    hide EstimateFile;
    hide FileRated;
    if files != [] {
      EstimatedFile(comfort, files[0], m);
      EstimatedFiles(comfort, files[1..], m);
    }
  }

  /** One size has one level on a machine. */
  lemma LevelUnique(comfort: Comfort, required: int, m: Machine, level: Level)
    requires LevelFor(comfort, required, m, level) && level != Unrated
    ensures EstimateFit(comfort, required, m).level == level
  {}

  lemma LevelForRated(comfort: Comfort, required: int, m: Machine)
    ensures !LevelFor(comfort, required, m, Unrated)
  {}

  lemma RatedModel(comfort: Comfort, id: string, appeal: real, files: seq<File>, m: Machine)
    requires files != [] && forall f :: f in files ==> FileRated(comfort, f, m)
    ensures ModelRated(comfort, Rated(comfort, id, appeal, files, m), m)
  {
    var best := BestOf(files);
    BestBeats(files[0], files[1..]);
    hide BestOf;
    assert best in files;
    assert FileRated(comfort, best, m);
    LevelForRated(comfort, best.ram, m);
    LevelUnique(comfort, best.ram, m, best.level);
    FitExact(comfort, best.ram, m);
    hide FileRated;
    hide EstimateFit;
    hide QuantRank;
  }

  lemma RefitRated(comfort: Comfort, x: Model, m: Machine)
    ensures ModelRated(comfort, RefitModel(comfort, x, m), m)
  {
    hide ModelRated;
    if x.files == [] {
      EmptyRated(comfort, x, m);
    } else {
      EstimatedFiles(comfort, x.files, m);
      RatedModel(comfort, x.id, x.appeal, FitFiles(comfort, x.files, m), m);
    }
  }

  /** What a refit leaves alone: the model itself, what is known of its files, a video memory estimate on a machine
      without a GPU, and the score of a model without files. */
  lemma RefitKeeps(comfort: Comfort, x: Model, m: Machine)
    ensures var y := RefitModel(comfort, x, m);
            && y.id == x.id && y.appeal == x.appeal && |y.files| == |x.files|
            && (x.files == [] ==> y.score == x.score)
            && forall i :: 0 <= i < |x.files| ==>
                 var f, g := x.files[i], y.files[i];
                 && g.filename == f.filename && g.quant == f.quant && g.size == f.size && g.exists_ == f.exists_
                 && (!m.hasGpu ==> g.vram == f.vram)
  {
    forall i | 0 <= i < |x.files| ensures FitFiles(comfort, x.files, m)[i] == EstimateFile(comfort, x.files[i], m) {
      FitFilesAt(comfort, x.files, m, i);
    }
    hide FitFiles;
    hide EstimateFit;
    hide Required;
    hide BestOf;
  }

  lemma EmptyRated(comfort: Comfort, x: Model, m: Machine)
    requires x.files == []
    ensures ModelRated(comfort, RefitModel(comfort, x, m), m)
  {}

  lemma {:induction false} RefitsRated(comfort: Comfort, models: seq<Model>, m: Machine, x: Model)
    requires x in RefitModels(comfort, models, m)
    ensures ModelRated(comfort, x, m)
    decreases |models|
  {
    hide ModelRated;
    hide RefitModel;
    if x == RefitModel(comfort, models[0], m) {
      RefitRated(comfort, models[0], m);
    } else {
      RefitsRated(comfort, models[1..], m, x);
    }
  }

  /** Whatever a cached listing said, after a refit every model and file in it is rated for the new machine. */
  lemma RefitListingRated(comfort: Comfort, listing: Listing, m: Machine, x: Model)
    requires x in Refit(comfort, listing, m).models
    ensures ModelRated(comfort, x, m)
  {
    hide ModelRated;
    hide SortModels;
    hide RefitModels;
    SortHas(RefitModels(comfort, listing.models, m), x);
    RefitsRated(comfort, listing.models, m, x);
  }

  /** The file as the service and the disk describe it. */
  ghost predicate FileOf(f: File, raw: RawFile) {
    f.filename == raw.filename && f.quant == raw.quant && f.size == raw.size && f.exists_ == raw.exists_
  }

  lemma {:induction false} FilesOf(comfort: Comfort, raws: seq<RawFile>, m: Machine, i: nat)
    requires i < |raws|
    ensures FileOf(FitFiles(comfort, FreshFiles(raws), m)[i], raws[i])
    decreases |raws|
  {
    hide EstimateFile;
    var files := FreshFiles(raws);
    EstimatedFile(comfort, files[0], m);
    assert files[1..] == FreshFiles(raws[1..]);
    if i > 0 { FilesOf(comfort, raws[1..], m, i - 1); }
  }

  /** A source is listed exactly when it has files, the best of them fits as well as asked for, and one is on disk where
      only local models are asked for. */
  lemma KeptExactly(comfort: Comfort, params: Params, s: Source, m: Machine)
    ensures Kept(comfort, params, s, m) <==>
            && s.files != []
            && (params.minFit == OnlyFits ==> BestOf(FilesFor(comfort, s, m)).level == Fits)
            && (params.minFit == AtLeastMarginal ==> BestOf(FilesFor(comfort, s, m)).level in {Fits, Marginal})
            && (params.localOnly ==> exists f :: f in s.files && f.exists_)
  {
    hide FitFiles;
    hide FreshFiles;
    if s.files != [] { LocalBest(comfort, s, m); }
    hide Best;
  }

  /** A new listing holds a model for every source that is kept, and no other; it has the source's files, each rated for
      the machine. */
  lemma BuiltListingRated(comfort: Comfort, params: Params, sources: seq<Source>, m: Machine, x: Model)
    ensures x in Build(comfort, params, sources, m).models <==>
            exists s :: s in sources && Kept(comfort, params, s, m) && x == Rated(comfort, s.id, s.appeal, FilesFor(comfort, s, m), m)
    ensures x in Build(comfort, params, sources, m).models ==>
            && ModelRated(comfort, x, m)
            && exists s :: s in sources && s.id == x.id && s.appeal == x.appeal && |x.files| == |s.files|
                           && forall i :: 0 <= i < |s.files| ==> FileOf(x.files[i], s.files[i])
  {
    hide ModelRated;
    hide Rated;
    hide SortModels;
    hide ModelsOf;
    hide Kept;
    hide FilesFor;
    var kept := KeptSources(comfort, params, sources, m);
    SortHas(ModelsOf(comfort, kept, m), x);
    ModelsNamed(comfort, kept, m, x);
    if x in Build(comfort, params, sources, m).models {
      var s :| s in kept && x == Rated(comfort, s.id, s.appeal, FilesFor(comfort, s, m), m);
      SourceRated(comfort, s, m);
    }
  }

  lemma SourceRated(comfort: Comfort, s: Source, m: Machine)
    requires s.files != []
    ensures var x := Rated(comfort, s.id, s.appeal, FilesFor(comfort, s, m), m);
            && ModelRated(comfort, x, m) && x.id == s.id && x.appeal == s.appeal && |x.files| == |s.files|
            && forall i :: 0 <= i < |s.files| ==> FileOf(x.files[i], s.files[i])
  {
    hide ModelRated;
    hide FileOf;
    hide Best;
    EstimatedFiles(comfort, FreshFiles(s.files), m);
    RatedModel(comfort, s.id, s.appeal, FilesFor(comfort, s, m), m);
    forall i | 0 <= i < |s.files| ensures FileOf(FilesFor(comfort, s, m)[i], s.files[i]) { FilesOf(comfort, s.files, m, i); }
    hide EstimateFit;
  }

  // ---------- the order ----------

  lemma {:induction false} InsertCounts(x: Model, models: seq<Model>)
    ensures multiset(InsertModel(x, models)) == multiset([x]) + multiset(models)
  {
    hide Ahead;
    if models != [] {
      InsertCounts(x, models[1..]);
      assert models == [models[0]] + models[1..];
    }
  }

  lemma {:induction false} SortCounts(models: seq<Model>)
    ensures multiset(SortModels(models)) == multiset(models)
  {
    if models != [] {
      SortCounts(models[1..]);
      InsertCounts(models[0], SortModels(models[1..]));
      assert models == [models[0]] + models[1..];
    }
  }

  /** A sorted listing holds the same models as often, the higher scores first and the smaller ids among equal ones. */
  lemma SortExact(models: seq<Model>)
    ensures multiset(SortModels(models)) == multiset(models)
    ensures forall i, j :: 0 <= i < j < |SortModels(models)| ==>
              var a, b := SortModels(models)[i], SortModels(models)[j];
              a.score > b.score || (a.score == b.score && LexLeq(a.id, b.id))
  {
    SortCounts(models);
    SortOrders(models);
    hide SortModels;
  }

  // ---------- the best file ----------

  /** Better levels first. */
  predicate LevelAbove(a: Level, b: Level) {
    match a
    case Fits => b != Fits
    case Marginal => b in {Unknown, TooLarge, Unrated}
    case Unknown => b in {TooLarge, Unrated}
    case TooLarge => b == Unrated
    case Unrated => false
  }

  /** The rank of a quantisation by the beginning of its name. */
  lemma QuantExact(quant: string)
    ensures "Q4_K_M" <= quant ==> QuantRank(quant) == 8
    ensures "Q5_K_M" <= quant ==> QuantRank(quant) == 7
    ensures "Q6_K" <= quant ==> QuantRank(quant) == 6
    ensures "Q4" <= quant && !("Q4_K_M" <= quant) ==> QuantRank(quant) == 5
    ensures "Q5" <= quant && !("Q5_K_M" <= quant) ==> QuantRank(quant) == 4
    ensures "Q8" <= quant ==> QuantRank(quant) == 3
    ensures "F16" <= quant || "BF16" <= quant ==> QuantRank(quant) == 2
    ensures !("Q4" <= quant || "Q5" <= quant || "Q6_K" <= quant || "Q8" <= quant || "F16" <= quant || "BF16" <= quant) ==> QuantRank(quant) == 1
  {
    Prefixes(quant, "Q4_K_M", "Q4");
    Prefixes(quant, "Q5_K_M", "Q5");
    if "Q4" <= quant { assert quant[0] == 'Q' && quant[1] == '4'; }
    if "Q5" <= quant { assert quant[0] == 'Q' && quant[1] == '5'; }
    if "Q6_K" <= quant { assert quant[0] == 'Q' && quant[1] == '6'; }
    if "Q8" <= quant { assert quant[0] == 'Q' && quant[1] == '8'; }
    if "F16" <= quant { assert quant[0] == 'F'; }
    if "BF16" <= quant { assert quant[0] == 'B'; }
  }

  lemma Prefixes(s: string, longer: string, shorter: string)
    ensures shorter <= longer && longer <= s ==> shorter <= s
  {}

  /** The best file is on disk if any is; among those that are there or not like it none has a better level, among these
      none a better quantisation, among these none is smaller, and among these none is named earlier. */
  lemma BestPrefers(files: seq<File>, f: File)
    requires f in files
    ensures var b := BestOf(files);
            && b in files
            && (f.exists_ ==> b.exists_)
            && (f.exists_ == b.exists_ ==>
                  && !LevelAbove(f.level, b.level)
                  && (f.level == b.level ==>
                        && QuantRank(f.quant) <= QuantRank(b.quant)
                        && (QuantRank(f.quant) == QuantRank(b.quant) ==>
                              b.size <= f.size && (b.size == f.size ==> LexLeq(b.filename, f.filename)))))
  {
    BestBeats(files[0], files[1..]);
    var b := BestOf(files);
    hide Best;
    assert f == files[0] || f in files[1..];
    hide QuantRank;
    LexTotal(b.filename, f.filename);
  }
}
