/** How well a model file fits a machine, and which file of a model is its best. */
module CatalogFit {
  import opened Sorting

  /** The fit levels; `Unrated` is the empty level of a file that has not been estimated. */
  datatype Level = Unrated | TooLarge | Unknown | Marginal | Fits

  /** What the text of a reason is made from. */
  datatype Reason = NoReason | UnknownCapacity | Within(vram: bool, required: int) | Close(vram: bool, required: int) | Exceeds(vram: bool, required: int)

  datatype File = File(filename: string, quant: string, size: int, exists_: bool,
                       ram: int, vram: int, level: Level, reason: Reason)

  datatype Machine = Machine(ram: int, vram: int, hasGpu: bool)

  datatype Fit = Fit(level: Level, reason: Reason, requiredRam: int, availableRam: int, requiredVram: int, availableVram: int)

  const OVERHEAD_BYTES: int := 512 * 1024 * 1024

  /** The 64-bit sum wraps around. */
  function Wrap64(n: int): int {
    (n + 0x8000_0000_0000_0000) % 0x1_0000_0000_0000_0000 - 0x8000_0000_0000_0000
  }

  function Required(size: int): int {
    Wrap64(size + OVERHEAD_BYTES)
  }

  /** `comfort(capacity)` is the part of a capacity that a model may fill and still fit. */
  function EstimateFit(comfort: int -> int, required: int, m: Machine): Fit {
    var capacity := if m.hasGpu then m.vram else m.ram;
    var fit := Fit(Unknown, UnknownCapacity, required, m.ram, if m.hasGpu then required else 0, if m.hasGpu then capacity else 0);
    if required <= 0 || capacity <= 0 then fit
    else if required <= comfort(capacity) then fit.(level := Fits, reason := Within(m.hasGpu, required))
    else if required <= capacity then fit.(level := Marginal, reason := Close(m.hasGpu, required))
    else fit.(level := TooLarge, reason := Exceeds(m.hasGpu, required))
  }

  /** Without a GPU the earlier video memory estimate stays. */
  function EstimateFile(comfort: int -> int, f: File, m: Machine): File {
    var required := Required(f.size);
    var fit := EstimateFit(comfort, required, m);
    f.(ram := required, vram := if m.hasGpu then required else f.vram, level := fit.level, reason := fit.reason)
  }

  function FitRank(level: Level): nat {
    match level
    case Fits => 4
    case Marginal => 3
    case Unknown => 2
    case TooLarge => 1
    case Unrated => 0
  }

  function QuantRank(quant: string): nat {
    if "Q4_K_M" <= quant then 8
    else if "Q5_K_M" <= quant then 7
    else if "Q6_K" <= quant then 6
    else if "Q4" <= quant then 5
    else if "Q5" <= quant then 4
    else if "Q8" <= quant then 3
    else if "F16" <= quant || "BF16" <= quant then 2
    else 1
  }

  /** `strings.Compare` */
  function CompareNames(a: string, b: string): int {
    if a == b then 0 else if LexLeq(a, b) then -1 else 1
  }

  /** Positive when the first file is the better one: it is there, fits better, has the better quantisation,
      is smaller, or is named earlier. */
  function CompareFile(a: File, b: File): int {
    if a.exists_ != b.exists_ then (if a.exists_ then 1 else -1)
    else if FitRank(a.level) != FitRank(b.level) then FitRank(a.level) - FitRank(b.level)
    else if QuantRank(a.quant) != QuantRank(b.quant) then QuantRank(a.quant) - QuantRank(b.quant)
    else if a.size != b.size then (if a.size < b.size then 1 else -1)
    else CompareNames(b.filename, a.filename)
  }

  /** The best of a file and those after it; an earlier file wins a tie. */
  function Best(best: File, rest: seq<File>): File
    decreases |rest|
  {
    if rest == [] then best
    else Best(if CompareFile(rest[0], best) > 0 then rest[0] else best, rest[1..])
  }

  function BestOf(files: seq<File>): File
    requires files != []
  {
    Best(files[0], files[1..])
  }

  method BestFile(files: seq<File>) returns (best: File)
    requires files != []
    ensures best == BestOf(files)
  {
    best := files[0];
    for i := 1 to |files|
      invariant Best(best, files[i..]) == BestOf(files)
    {
      assert files[i..][1..] == files[i + 1..];
      if CompareFile(files[i], best) > 0 {
        best := files[i];
      }
    }
  }

  lemma CompareFlips(a: File, b: File)
    ensures CompareFile(a, b) > 0 <==> CompareFile(b, a) < 0
    ensures CompareFile(a, b) == 0 ==> a.filename == b.filename
  {
    hide QuantRank;
    LexTotal(a.filename, b.filename);
    if LexLeq(a.filename, b.filename) && LexLeq(b.filename, a.filename) { LexAntisymmetric(a.filename, b.filename); }
  }

  lemma CompareTransitive(a: File, b: File, c: File)
    requires CompareFile(a, b) >= 0 && CompareFile(b, c) >= 0
    ensures CompareFile(a, c) >= 0
  {
    hide QuantRank;
    var x, y, z := a.filename, b.filename, c.filename;
    NamesTransitive(x, y, z);
  }

  lemma NamesTransitive(x: string, y: string, z: string)
    ensures CompareNames(y, x) >= 0 && CompareNames(z, y) >= 0 ==> CompareNames(z, x) >= 0
  {
    LexTotal(x, y);
    LexTotal(y, z);
    LexTotal(x, z);
    if LexLeq(x, y) && LexLeq(y, z) { LexTransitive(x, y, z); }
    if LexLeq(x, z) && LexLeq(z, x) { LexAntisymmetric(x, z); }
    if LexLeq(x, y) && LexLeq(y, x) { LexAntisymmetric(x, y); }
    if LexLeq(z, y) && LexLeq(y, z) { LexAntisymmetric(z, y); }
  }

  lemma {:induction false} BestBeats(best: File, rest: seq<File>)
    ensures var r := Best(best, rest);
            && (r == best || r in rest)
            && CompareFile(r, best) >= 0
            && (forall f :: f in rest ==> CompareFile(r, f) >= 0)
    decreases |rest|
  {
    hide CompareFile;
    CompareSelf(best);
    if rest != [] {
      var next := if CompareFile(rest[0], best) > 0 then rest[0] else best;
      BestBeats(next, rest[1..]);
      var r := Best(best, rest);
      CompareFlips(rest[0], best);
      CompareSelf(rest[0]);
      CompareTransitive(r, next, best);
      CompareTransitive(r, next, rest[0]);
      assert forall f :: f in rest ==> f == rest[0] || f in rest[1..];
    }
  }

  lemma CompareSelf(f: File)
    ensures CompareFile(f, f) == 0
  {}

  ghost predicate DistinctNames(files: seq<File>) {
    forall f, g :: f in files && g in files && f.filename == g.filename ==> f == g
  }

  /** The loop finds the greatest file; when no two files share a name it beats every other one,
      so the order of the list does not matter. */
  lemma BestIsMaximum(files: seq<File>, other: seq<File>)
    requires files != [] && other != [] && DistinctNames(files)
    requires forall f :: f in files <==> f in other
    ensures BestOf(files) in files
    ensures forall f :: f in files && f != BestOf(files) ==> CompareFile(BestOf(files), f) > 0
    ensures BestOf(other) == BestOf(files)
  {
    hide CompareFile;
    assert files[0] in other && other[0] in files;
    BestBeats(files[0], files[1..]);
    BestBeats(other[0], other[1..]);
    var a, b := BestOf(files), BestOf(other);
    assert forall f :: f in files ==> f == files[0] || f in files[1..];
    assert forall f :: f in other ==> f == other[0] || f in other[1..];
    forall f | f in files && f != a ensures CompareFile(a, f) > 0 { CompareFlips(a, f); }
    CompareFlips(a, b);
  }

  /** Whether the best file is there does not depend on the machine. */
  lemma {:induction false} BestExists(best: File, rest: seq<File>)
    ensures Best(best, rest).exists_ <==> best.exists_ || exists f :: f in rest && f.exists_
    decreases |rest|
  {
    if rest != [] {
      BestExists(if CompareFile(rest[0], best) > 0 then rest[0] else best, rest[1..]);
      assert forall f :: f in rest <==> f == rest[0] || f in rest[1..];
    }
  }
}
