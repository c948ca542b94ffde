/** Cutting one section out of the text of `models.ini`. */
module PresetRemove {
  import opened Wrappers
  import opened Text
  import opened PresetFile

  function FindHeader(lines: seq<Line>, name: string): (i: nat)
    ensures i <= |lines|
    ensures i < |lines| ==> lines[i] == Header(name)
    ensures Header(name) !in lines[..i]
  {
    if lines == [] || lines[0] == Header(name) then 0 else 1 + FindHeader(lines[1..], name)
  }

  function NextHeader(lines: seq<Line>, from: nat): (i: nat)
    requires from <= |lines|
    ensures from <= i <= |lines|
    ensures i < |lines| ==> lines[i].Header?
    ensures forall j :: from <= j < i ==> !lines[j].Header?
    decreases |lines| - from
  {
    if from == |lines| || lines[from].Header? then from else NextHeader(lines, from + 1)
  }

  /** Moves `end` back over blank lines and comments, but not below `low`. */
  function BackOverBlanks(lines: seq<Line>, low: nat, end: nat): (e: nat)
    requires low <= end <= |lines|
    ensures low <= e <= end
    ensures forall j :: e <= j < end ==> lines[j] == Blank
    ensures e == low || lines[e - 1] != Blank
  {
    if end > low && lines[end - 1] == Blank then BackOverBlanks(lines, low, end - 1) else end
  }

  /** The lines of a section: its header up to its last entry, without the comments that follow. */
  datatype Block = Block(start: nat, end: nat)

  function BlockOf(lines: seq<Line>, name: string): (b: Block)
    ensures b.start <= b.end <= |lines|
  {
    var start := FindHeader(lines, name);
    if start == |lines| then Block(start, start)
    else Block(start, BackOverBlanks(lines, start + 1, NextHeader(lines, start + 1)))
  }

  function RemoveLines(lines: seq<string>, name: string): seq<string> {
    var b := BlockOf(Classified(lines), name);
    lines[..b.start] + lines[b.end..]
  }

  function RemoveText(content: string, name: string): string {
    Join(RemoveLines(Split(content), name))
  }

  /** The header test of `removeSection`. */
  predicate LooksLikeHeader(trimmed: string) {
    trimmed != "" && trimmed[0] == '[' && trimmed[|trimmed| - 1] == ']'
  }

  lemma HeaderTestClassifies(line: string)
    ensures LooksLikeHeader(Trim(line)) <==> Classify(line).Header?
    ensures LooksLikeHeader(Trim(line)) ==>
      |Trim(line)| >= 2 && Classify(line).name == Trim(Trim(line)[1..|Trim(line)| - 1])
    ensures Skippable(Trim(line)) <==> Classify(line) == Blank
  {
    hide Classify;
    hide Trim;
    ClassifyCases(line);
  }

  lemma {:induction false} FirstHeader(lines: seq<Line>, name: string, i: nat)
    requires i < |lines| && lines[i] == Header(name)
    ensures FindHeader(lines, name) <= i
  {
    if i > 0 { FirstHeader(lines[1..], name, i - 1); }
  }

  lemma {:induction false} NextHeaderIs(lines: seq<Line>, from: nat, i: nat)
    requires from <= i <= |lines| && (i < |lines| ==> lines[i].Header?)
    requires forall j :: from <= j < i ==> !lines[j].Header?
    ensures NextHeader(lines, from) == i
    decreases i - from
  {
    if from < i { NextHeaderIs(lines, from + 1, i); }
  }

  /** The second loop of `removeSection`. */
  method BackOver(lines: seq<string>, low: nat, from: nat) returns (end: nat)
    requires low <= from <= |lines|
    ensures end == BackOverBlanks(Classified(lines), low, from)
  {
    hide Classify;
    hide Trim;
    end := from;
    while end > low
      invariant low <= end <= from
      invariant BackOverBlanks(Classified(lines), low, end) == BackOverBlanks(Classified(lines), low, from)
    {
      HeaderTestClassifies(lines[end - 1]);
      if !Skippable(Trim(lines[end - 1])) {
        break;
      }
      end := end - 1;
    }
  }

  /** `removeSection`: one scan for the block, one scan back over what trails it. */
  method RemoveSection(content: string, name: string) returns (r: string)
    ensures r == RemoveText(content, name)
    ensures BlockOf(Classified(Split(content)), name).start == |Split(content)| ==> r == content
  {
    hide Classify;
    hide Trim;
    hide Split;
    hide Join;
    hide FindHeader;
    hide NextHeader;
    hide BackOverBlanks;
    hide LooksLikeHeader;
    hide Skippable;
    JoinSplit(content);
    var lines := Split(content);
    ghost var kinds := Classified(lines);
    ghost var first := FindHeader(kinds, name);
    var start, end := -1, |lines|;
    var i := 0;
    while i < |lines|
      invariant 0 <= i <= |lines| && end == |lines|
      invariant start == -1 ==> i <= first
      invariant start != -1 ==> start == first < i && (forall j :: start < j < i ==> !kinds[j].Header?)
    {
      var trimmed := Trim(lines[i]);
      HeaderTestClassifies(lines[i]);
      if LooksLikeHeader(trimmed) {
        if start >= 0 {
          end := i;
          break;
        }
        if kinds[i] == Header(name) { FirstHeader(kinds, name, i); }
        if Trim(trimmed[1..|trimmed| - 1]) == name {
          start := i;
        }
      }
      i := i + 1;
    }
    if start < 0 {
      assert lines[..first] + lines[first..] == lines;
      return content;
    }
    NextHeaderIs(kinds, start + 1, end);
    end := BackOver(lines, start + 1, end);
    return Join(lines[..start] + lines[end..]);
  }

  // ---------- what is taken out, and what stays ----------

  lemma NoBlock(kinds: seq<Line>, name: string)
    ensures Header(name) !in kinds ==> BlockOf(kinds, name) == Block(|kinds|, |kinds|)
    ensures Header(name) in kinds ==> FindHeader(kinds, name) < |kinds|
  {
    assert kinds[..|kinds|] == kinds;
  }

  lemma FoundBlock(kinds: seq<Line>, name: string)
    requires Header(name) in kinds
    ensures var b := BlockOf(kinds, name);
            && b.start < b.end && kinds[b.start] == Header(name)
            && (forall j :: b.start < j < b.end ==> !kinds[j].Header?)
            && kinds[b.end - 1] != Blank
            && HeaderFirst(kinds[b.end..])
  {
    hide HeaderFirst;
    NoBlock(kinds, name);
    var b := BlockOf(kinds, name);
    HeaderFirstFrom(kinds, b.end, NextHeader(kinds, b.start + 1));
  }

  /** The block is the header and what belongs to it; the lines around it are kept as they are. */
  lemma RemovedBlock(lines: seq<string>, name: string)
    ensures var kinds := Classified(lines);
            var b := BlockOf(kinds, name);
            if Header(name) !in kinds then RemoveLines(lines, name) == lines
            else
              && RemoveLines(lines, name) == lines[..b.start] + lines[b.end..]
              && kinds[b.start] == Header(name) && b.start < b.end
              && (forall j :: b.start < j < b.end ==> !kinds[j].Header?)
              && kinds[b.end - 1] != Blank
              && HeaderFirst(kinds[b.end..])
  {
    hide Classified;
    hide HeaderFirst;
    hide BlockOf;
    var kinds := Classified(lines);
    if Header(name) in kinds {
      FoundBlock(kinds, name);
    } else {
      NoBlock(kinds, name);
      assert lines[..|lines|] + lines[|lines|..] == lines;
    }
  }

  /** Only blank lines and comments come before the next header or the end. */
  predicate HeaderFirst(lines: seq<Line>) {
    lines == [] || lines[0].Header? || (lines[0] == Blank && HeaderFirst(lines[1..]))
  }

  lemma {:induction false} HeaderFirstFrom(lines: seq<Line>, from: nat, next: nat)
    requires from <= next <= |lines|
    requires forall j :: from <= j < next ==> lines[j] == Blank
    requires next < |lines| ==> lines[next].Header?
    ensures HeaderFirst(lines[from..])
    decreases next - from
  {
    if from < next {
      HeaderFirstFrom(lines, from + 1, next);
      assert lines[from..][1..] == lines[from + 1..];
    }
  }

  // ---------- the parsed map ----------

  lemma {:induction false} FoldKeys(s: State, lines: seq<Line>, name: string)
    requires Fold(s, lines).Some?
    ensures name in Fold(s, lines).value.sections <==> name in s.sections || Header(name) in lines
    decreases |lines|
  {
    if lines != [] {
      FoldKeys(Step(s, lines[0]).value, lines[1..], name);
      assert lines == [lines[0]] + lines[1..];
    }
  }

  /** Lines without a header change no section but the current one. */
  lemma {:induction false} FoldEntries(s: State, lines: seq<Line>)
    requires s.current != ""
    requires forall i :: 0 <= i < |lines| ==> !lines[i].Header?
    requires Fold(s, lines).Some?
    ensures var t := Fold(s, lines).value;
            t.current == s.current && t.sections - {s.current} == s.sections - {s.current}
    decreases |lines|
  {
    if lines != [] {
      FoldEntries(Step(s, lines[0]).value, lines[1..]);
    }
  }

  /** Two parsers that differ only in a section which is not the current one go on to differ only there. */
  lemma {:induction false} FoldWithout(s: State, lines: seq<Line>, name: string)
    requires name in s.sections && s.current != name
    requires Fold(s, lines).Some?
    ensures var t := Fold(s, lines).value;
            name in t.sections && t.current != name &&
            Fold(Scan(s.sections - {name}, s.current), lines) == Some(Scan(t.sections - {name}, t.current))
    decreases |lines|
  {
    if lines != [] {
      StepWithout(s, lines[0], name);
      hide Step;
      FoldWithout(Step(s, lines[0]).value, lines[1..], name);
    }
  }

  lemma StepWithout(s: State, line: Line, name: string)
    requires name in s.sections && s.current != name && Step(s, line).Some?
    ensures var t := Step(s, line).value;
            name in t.sections && t.current != name &&
            Step(Scan(s.sections - {name}, s.current), line) == Some(Scan(t.sections - {name}, t.current))
  {
    hide ValidName;
    var less: State := Scan(s.sections - {name}, s.current);
    assert Step(less, line).Some? && Step(less, line).value.sections == Step(s, line).value.sections - {name};
  }

  /** After the removed block the parser meets a header before anything that matters. */
  lemma {:induction false} FoldResume(s: State, less: State, lines: seq<Line>, name: string)
    requires name in s.sections && s.current == name
    requires less.sections == s.sections - {name}
    requires HeaderFirst(lines)
    requires Fold(s, lines).Some?
    ensures Fold(less, lines).Some?
    ensures Fold(less, lines).value.sections == Fold(s, lines).value.sections - {name}
    decreases |lines|
  {
    if lines != [] {
      if lines[0] == Blank {
        FoldResume(s, less, lines[1..], name);
      } else {
        var next := Step(s, lines[0]).value;
        var header := lines[0].name;
        assert less.sections[header := map[]] == next.sections - {name};
        FoldWithout(next, lines[1..], name);
      }
    }
  }

  /** Reading the lines of the block adds the section and nothing else. */
  lemma BlockFold(s: State, block: seq<Line>, name: string)
    requires block != [] && block[0] == Header(name)
    requires forall j :: 0 < j < |block| ==> !block[j].Header?
    requires Fold(s, block).Some?
    ensures var t := Fold(s, block).value;
            name !in s.sections && t.current == name && name in t.sections && t.sections - {name} == s.sections
  {
    FoldEntries(Step(s, block[0]).value, block[1..]);
  }

  lemma RemoveFold(lines: seq<Line>, b: Block, name: string)
    requires b.start < b.end <= |lines|
    requires lines[b.start] == Header(name)
    requires forall j :: b.start < j < b.end ==> !lines[j].Header?
    requires HeaderFirst(lines[b.end..])
    requires Fold(START, lines).Some?
    ensures Fold(START, lines[..b.start] + lines[b.end..]).Some?
    ensures Fold(START, lines[..b.start] + lines[b.end..]).value.sections
         == Fold(START, lines).value.sections - {name}
  {
    var before, block, after := lines[..b.start], lines[b.start..b.end], lines[b.end..];
    assert lines[..b.end] == before + block && lines == lines[..b.end] + after;
    FoldAppend(START, lines[..b.end], after);
    FoldAppend(START, before, block);
    var s := Fold(START, before).value;
    BlockFold(s, block, name);
    FoldResume(Fold(s, block).value, s, after, name);
    FoldAppend(START, before, after);
  }

  /** Reading joined lines is reading the lines, even when none are left. */
  lemma FoldJoined(lines: seq<string>)
    requires forall i :: 0 <= i < |lines| ==> '\n' !in lines[i]
    ensures FoldText(Join(lines)) == Fold(START, Classified(lines))
  {
    hide Classify;
    if lines == [] {
      ClassifyEmpty();
      assert Classified(Split("")) == [Blank];
    } else {
      SplitJoin(lines);
    }
  }

  lemma ClassifiedKept(lines: seq<string>, start: nat, end: nat)
    requires start <= end <= |lines|
    ensures Classified(lines[..start] + lines[end..]) == Classified(lines)[..start] + Classified(lines)[end..]
  {
    hide Classify;
  }

  lemma RemovePresent(content: string, name: string)
    requires Parse(content).Some? && Header(name) in Classified(Split(content))
    ensures Parse(RemoveText(content, name)) == Some(Parse(content).value - {name})
  {
    hide Classify;
    hide BlockOf;
    hide Join;
    hide Split;
    hide HeaderFirst;
    hide Fold;
    var lines := Split(content);
    var kinds := Classified(lines);
    RemovedBlock(lines, name);
    var b := BlockOf(kinds, name);
    RemoveFold(kinds, b, name);
    ClassifiedKept(lines, b.start, b.end);
    FoldJoined(lines[..b.start] + lines[b.end..]);
  }

  /** Removing a section from a readable text removes exactly that section from the map. */
  lemma RemoveParses(content: string, name: string)
    requires Parse(content).Some?
    ensures Parse(RemoveText(content, name)) == Some(Parse(content).value - {name})
    ensures name !in Parse(content).value ==> RemoveText(content, name) == content
  {
    hide Classify;
    hide BlockOf;
    FoldKeys(START, Classified(Split(content)), name);
    if name in Parse(content).value {
      RemovePresent(content, name);
    } else {
      RemovedBlock(Split(content), name);
      JoinSplit(content);
      assert Parse(content).value - {name} == Parse(content).value;
    }
  }

  lemma {:induction false} FoldNoBadHeader(s: State, lines: seq<Line>)
    requires Fold(s, lines).Some?
    ensures BadHeader !in lines
    decreases |lines|
  {
    if lines != [] {
      FoldNoBadHeader(Step(s, lines[0]).value, lines[1..]);
    }
  }

  /** On readable text the remover takes a line for a header exactly when the parser does. */
  lemma HeaderTestsAgree(content: string, i: nat)
    requires Parse(content).Some? && i < |Split(content)|
    ensures var trimmed := Trim(Split(content)[i]);
            LooksLikeHeader(trimmed) <==> (trimmed != "" && trimmed[0] == '[')
  {
    var lines := Split(content);
    FoldNoBadHeader(START, Classified(lines));
    assert Classified(lines)[i] != BadHeader;
  }
}
