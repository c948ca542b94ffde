/** The name the web interface proposes for a new preset of a model file. */
module UniqueName {
  import opened Text
  import opened Numerals
  import PresetFile

  /** The characters `[A-Za-z0-9._-]`. */
  predicate Allowed(c: char) {
    'A' <= c <= 'Z' || 'a' <= c <= 'z' || '0' <= c <= '9' || c == '.' || c == '_' || c == '-'
  }

  predicate AllAllowed(s: string) {
    forall i :: 0 <= i < |s| ==> Allowed(s[i])
  }

  function Lower(c: char): char {
    if 'A' <= c <= 'Z' then ((c as int) + 32) as char else c
  }

  predicate EndsInGguf(s: string) {
    var n := |s|;
    n >= 5 && s[n - 5] == '.' && Lower(s[n - 4]) == 'g' && Lower(s[n - 3]) == 'g' && Lower(s[n - 2]) == 'u' && Lower(s[n - 1]) == 'f'
  }

  function Stem(filename: string): string {
    if EndsInGguf(filename) then filename[..|filename| - 5] else filename
  }

  function SkipRun(s: string): (t: string)
    ensures |t| <= |s| && (t == "" || Allowed(t[0]))
  {
    if s == "" || Allowed(s[0]) then s else SkipRun(s[1..])
  }

  /** Each run of other characters becomes one hyphen. */
  function Hyphenated(s: string): (t: string)
    ensures AllAllowed(t) && |t| <= |s|
    decreases |s|
  {
    if s == "" then ""
    else if Allowed(s[0]) then [s[0]] + Hyphenated(s[1..])
    else "-" + Hyphenated(SkipRun(s[1..]))
  }

  function DropLeading(s: string): (t: string)
    ensures |t| <= |s| && (t == "" || t[0] != '-')
    ensures AllAllowed(s) ==> AllAllowed(t)
  {
    if s == "" || s[0] != '-' then s else DropLeading(s[1..])
  }

  function DropTrailing(s: string): (t: string)
    ensures t <= s && (t == "" || t[|t| - 1] != '-')
  {
    if s == "" || s[|s| - 1] != '-' then s else DropTrailing(s[..|s| - 1])
  }

  /** The sanitised stem, or `model` when nothing is left of it. */
  function Base(filename: string): (base: string)
    ensures base != "" && AllAllowed(base) && base[0] != '-' && base[|base| - 1] != '-'
  {
    var cleaned := DropTrailing(DropLeading(Hyphenated(Stem(filename))));
    if cleaned == "" then "model" else cleaned
  }

  function Candidate(base: string, suffix: nat): string {
    base + "-" + Decimal(suffix)
  }

  /** A candidate is the base, a hyphen and the number. */
  lemma CandidateReads(base: string, suffix: nat)
    ensures var name := Candidate(base, suffix);
            && |name| > |base| + 1 && name[..|base|] == base && name[|base|] == '-'
            && ValueOf(name[|base| + 1..]) == suffix
  {
    DecimalValue(suffix);
    assert Candidate(base, suffix)[|base| + 1..] == Decimal(suffix);
  }

  /** The names tried before a suffix: the base and the candidates from 2 on. */
  function Tried(base: string, suffix: nat): set<string>
    requires suffix >= 2
  {
    if suffix == 2 then {base} else Tried(base, suffix - 1) + {Candidate(base, suffix - 1)}
  }

  lemma CandidatesDiffer(base: string, i: nat, j: nat)
    requires Candidate(base, i) == Candidate(base, j)
    ensures i == j
  {
    assert Candidate(base, i)[|base| + 1..] == Decimal(i);
    assert Candidate(base, j)[|base| + 1..] == Decimal(j);
    DecimalInjective(i, j);
  }

  lemma {:induction false} TriedHas(base: string, suffix: nat, name: string)
    requires suffix >= 2
    ensures name in Tried(base, suffix) <==> name == base || exists j :: 2 <= j < suffix && name == Candidate(base, j)
  {
    hide Candidate;
    if suffix > 2 { TriedHas(base, suffix - 1, name); }
  }

  /** No name is tried twice. */
  lemma {:induction false} TriedCount(base: string, suffix: nat)
    requires suffix >= 2
    ensures |Tried(base, suffix)| == suffix - 1
  {
    if suffix > 2 {
      TriedCount(base, suffix - 1);
      var name := Candidate(base, suffix - 1);
      TriedHas(base, suffix - 1, name);
      assert |name| > |base|;
      forall j | 2 <= j < suffix - 1 ensures name != Candidate(base, j) {
        if name == Candidate(base, j) { CandidatesDiffer(base, suffix - 1, j); }
      }
    }
  }

  lemma SubsetSize(a: set<string>, b: set<string>)
    requires a <= b
    ensures |a| <= |b|
  {
    if a != {} {
      var x :| x in a;
      SubsetSize(a - {x}, b - {x});
    }
  }

  /** The search ends because its candidates differ: one more name than are used is enough. */
  method UniquePresetName(filename: string, used: set<string>) returns (name: string)
    ensures name !in used && PresetFile.ValidName(name) && Trim(name) == name
    ensures name == Base(filename) <==> Base(filename) !in used
    ensures Base(filename) in used ==>
              exists k :: 2 <= k <= |used| + 1 && name == Candidate(Base(filename), k)
                          && forall j :: 2 <= j < k ==> Candidate(Base(filename), j) in used
  {
    hide Base;
    hide Candidate;
    var base := Base(filename);
    NamesValid(base, 2);
    if base !in used {
      return base;
    }
    var suffix := 2;
    while true
      invariant suffix >= 2 && Tried(base, suffix) <= used
      invariant suffix <= |used| + 1
      invariant forall j :: 2 <= j < suffix ==> Candidate(base, j) in used
      decreases |used| + 1 - suffix
    {
      NamesValid(base, suffix);
      var candidate := Candidate(base, suffix);
      if candidate !in used {
        return candidate;
      }
      TriedCount(base, suffix + 1);
      SubsetSize(Tried(base, suffix + 1), used);
      suffix := suffix + 1;
    }
  }

  /** The base and every candidate are names a section may have. */
  lemma NamesValid(base: string, suffix: nat)
    requires base != "" && AllAllowed(base)
    ensures PresetFile.ValidName(base) && Trim(base) == base
    ensures PresetFile.ValidName(Candidate(base, suffix)) && Trim(Candidate(base, suffix)) == Candidate(base, suffix)
  {
    hide Trim;
    hide Decimal;
    forall i | 0 <= i < |Decimal(suffix)| ensures Allowed(Decimal(suffix)[i]) { DecimalDigits(suffix, i); }
    AllowedValid(base);
    AllowedValid(Candidate(base, suffix));
  }

  lemma AllowedValid(name: string)
    requires name != "" && AllAllowed(name)
    ensures PresetFile.ValidName(name) && Trim(name) == name
  {
    assert Allowed(name[0]) && Allowed(name[|name| - 1]);
    TrimTight(name);
  }

  /** A file name is its own base exactly when there is nothing to strip, replace or trim. */
  lemma BaseKeeps(filename: string)
    ensures Base(filename) == filename <==>
              && filename != "" && !EndsInGguf(filename) && filename[0] != '-' && filename[|filename| - 1] != '-'
              && forall i :: 0 <= i < |filename| ==>
                   var c := filename[i];
                   'A' <= c <= 'Z' || 'a' <= c <= 'z' || '0' <= c <= '9' || c == '.' || c == '_' || c == '-'
  {
    BaseStays(filename);
    hide Base;
    hide EndsInGguf;
  }

  lemma BaseStays(filename: string)
    ensures Base(filename) == filename <==>
              filename != "" && AllAllowed(filename) && !EndsInGguf(filename) && filename[0] != '-' && filename[|filename| - 1] != '-'
  {
    hide Lower;
    if filename != "" && AllAllowed(filename) && !EndsInGguf(filename) { HyphenatedKeeps(filename); }
  }

  lemma {:induction false} HyphenatedKeeps(s: string)
    requires AllAllowed(s)
    ensures Hyphenated(s) == s
  {
    if s != "" { HyphenatedKeeps(s[1..]); }
  }

  // ---------- what becomes of any other name ----------

  /** One `.gguf` at the end is dropped, in upper or lower case or both, and nothing else is. */
  lemma StemExact(name: string, ext: string)
    requires |ext| == 5 && ext[0] == '.' && ext[1] in {'g', 'G'} && ext[2] in {'g', 'G'} && ext[3] in {'u', 'U'} && ext[4] in {'f', 'F'}
    ensures Stem(name + ext) == name && EndsInGguf(name + ext)
    ensures Stem(name) != name ==>
              && |name| >= 5 && Stem(name) == name[..|name| - 5] && name[|name| - 5] == '.'
              && name[|name| - 4] in {'g', 'G'} && name[|name| - 3] in {'g', 'G'} && name[|name| - 2] in {'u', 'U'} && name[|name| - 1] in {'f', 'F'}
    ensures !EndsInGguf(name) ==> Base(name + ext) == Base(name)
  {
    var full := name + ext;
    assert full[|name|..] == ext && full[..|name|] == name;
    assert forall i :: 0 <= i < 5 ==> full[|name| + i] == ext[i];
    hide Hyphenated;
  }

  lemma {:induction false} SkipsRun(run: string, b: string)
    requires forall i :: 0 <= i < |run| ==> !Allowed(run[i])
    requires b == "" || Allowed(b[0])
    ensures SkipRun(run + b) == b
  {
    hide Allowed;
    if run == "" {
      assert run + b == b;
    } else {
      assert (run + b)[1..] == run[1..] + b;
      SkipsRun(run[1..], b);
    }
  }

  /** Every maximal run of other characters becomes one hyphen. */
  lemma {:induction false} RunBecomesHyphen(a: string, run: string, b: string)
    requires AllAllowed(a) && run != "" && forall i :: 0 <= i < |run| ==> !Allowed(run[i])
    requires b == "" || Allowed(b[0])
    ensures Hyphenated(a + run + b) == a + ("-" + Hyphenated(b))
  {
    hide Allowed;
    hide SkipRun;
    var s := a + run + b;
    if a == "" {
      assert s[0] == run[0] && s[1..] == run[1..] + b;
      SkipsRun(run[1..], b);
    } else {
      assert s[1..] == a[1..] + run + b;
      RunBecomesHyphen(a[1..], run, b);
      assert a == [a[0]] + a[1..];
    }
  }

  /** Hyphens at both ends are dropped, and where nothing else is left the name is `model`. */
  lemma BaseTrims(filename: string) returns (i: nat, j: nat)
    ensures var s := Hyphenated(Stem(filename));
            && i <= j <= |s|
            && (forall k :: 0 <= k < i || j <= k < |s| ==> s[k] == '-')
            && (i < j ==> s[i] != '-' && s[j - 1] != '-')
            && Base(filename) == if i == j then "model" else s[i..j]
  {
    hide Hyphenated;
    hide Stem;
    var s := Hyphenated(Stem(filename));
    i := DroppedLeading(s);
    var n := DroppedTrailing(s[i..]);
    j := i + n;
    assert s[i..][..n] == s[i..j];
    assert forall k :: j <= k < |s| ==> s[k] == s[i..][k - i];
  }

  lemma {:induction false} DroppedLeading(s: string) returns (i: nat)
    ensures i <= |s| && DropLeading(s) == s[i..] && forall k :: 0 <= k < i ==> s[k] == '-'
  {
    i := 0;
    if s != "" && s[0] == '-' {
      var rest := DroppedLeading(s[1..]);
      i := rest + 1;
    }
  }

  lemma {:induction false} DroppedTrailing(s: string) returns (j: nat)
    ensures j <= |s| && DropTrailing(s) == s[..j] && forall k :: j <= k < |s| ==> s[k] == '-'
  {
    j := |s|;
    if s != "" && s[|s| - 1] == '-' {
      j := DroppedTrailing(s[..|s| - 1]);
      assert s[..|s| - 1][..j] == s[..j];
    }
  }
}
