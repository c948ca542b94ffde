/** The text format of `models.ini`: one line at a time, and the whole file as a map of sections. */
module PresetFile {
  import opened Wrappers
  import opened Text
  import opened PresetKeys

  type Values = map<string, string>
  type Sections = map<string, Values>

  /** What the parser sees in one line, whatever came before it. */
  datatype Line = Blank | Header(name: string) | BadHeader | Entry(key: string, value: string) | BadEntry

  predicate NameForbids(c: char) { c in {'[', ']', '\r', '\n', ';', '#', '='} }

  predicate ValidName(name: string) {
    Trim(name) != "" && forall i :: 0 <= i < |name| ==> !NameForbids(name[i])
  }

  /** A name is valid when something is left of it without the space around it, and it has none of seven characters. */
  lemma ValidNameExact(name: string)
    ensures ValidName(name) <==> Trim(name) != "" && forall c :: c in name ==> c !in "[]\r\n;#="
  {
    hide Trim;
    assert forall c :: c in name <==> exists i :: 0 <= i < |name| && name[i] == c;
    assert forall c :: NameForbids(c) <==> c in "[]\r\n;#=" by {
      assert "[]\r\n;#=" == ['[', ']', '\r', '\n', ';', '#', '='];
    }
  }

  /** The position of the first `c`, or the length of the string. */
  function IndexOf(s: string, c: char): (i: nat)
    ensures i <= |s| && c !in s[..i]
    ensures i < |s| ==> s[i] == c
  {
    if s == "" || s[0] == c then 0 else 1 + IndexOf(s[1..], c)
  }

  /** The pattern `[ \t][;#]` at position i. */
  predicate CommentAt(s: string, i: nat) {
    i + 1 < |s| && s[i] in {' ', '\t'} && s[i + 1] in {';', '#'}
  }

  predicate HasComment(s: string) {
    exists i: nat :: i < |s| && CommentAt(s, i)
  }

  /** Where the first inline comment begins, or the length of the string. */
  function CommentStart(s: string): (i: nat)
    ensures i <= |s|
    ensures i < |s| ==> CommentAt(s, i)
    ensures forall j: nat :: j < i ==> !CommentAt(s, j)
  {
    if s == "" then 0
    else if CommentAt(s, 0) then 0
    else
      var i := 1 + CommentStart(s[1..]);
      assert forall j: nat :: 1 <= j < i ==> (CommentAt(s, j) <==> CommentAt(s[1..], j - 1));
      i
  }

  /** What the parser keeps of the text after `=`. */
  function ReadValue(raw: string): string {
    Trim(raw[..CommentStart(raw)])
  }

  /** Whether a trimmed line is a comment or empty. */
  predicate Skippable(trimmed: string) {
    trimmed == "" || trimmed[0] == ';' || trimmed[0] == '#'
  }

  function Classify(line: string): Line {
    var trimmed := Trim(line);
    if Skippable(trimmed) then Blank
    else if trimmed[0] == '[' then
      if trimmed[|trimmed| - 1] != ']' then BadHeader
      else Header(Trim(trimmed[1..|trimmed| - 1]))
    else ClassifyEntry(line)
  }

  /** A line that is neither blank nor bracketed: it should hold `key = value`. */
  function ClassifyEntry(line: string): Line {
    var i := IndexOf(line, '=');
    if i == |line| then BadEntry
    else match CanonicalKey(Trim(line[..i]))
      case None => BadEntry
      case Some(key) => Entry(key, ReadValue(line[i + 1..]))
  }

  /** The four kinds of line, told apart by the first and last character of the trimmed line. */
  lemma ClassifyCases(line: string)
    ensures var trimmed := Trim(line);
            if Skippable(trimmed) then Classify(line) == Blank
            else if trimmed[0] != '[' then
              Classify(line) == ClassifyEntry(line) && (Classify(line).BadEntry? || Classify(line).Entry?)
            else if trimmed[|trimmed| - 1] != ']' then Classify(line) == BadHeader
            else |trimmed| >= 2 && Classify(line) == Header(Trim(trimmed[1..|trimmed| - 1]))
  {
    hide CanonicalKey;
    hide ReadValue;
    hide Trim;
  }

  /** The parser between two lines. `current` is empty before the first header. */
  datatype Scan = Scan(sections: Sections, current: string)
  type State = s: Scan | s.current == "" || s.current in s.sections witness Scan(map[], "")

  const START: State := Scan(map[], "")

  /** One line. None stands for an invalid file. */
  function Step(s: State, line: Line): Option<State> {
    match line
    case Blank => Some(s)
    case BadHeader => None
    case Header(name) =>
      if !ValidName(name) || name in s.sections then None
      else Some(Scan(s.sections[name := map[]], name))
    case BadEntry => if s.current == "" then Some(s) else None
    case Entry(key, value) =>
      if s.current == "" then Some(s)
      else Some(Scan(s.sections[s.current := s.sections[s.current][key := value]], s.current))
  }

  function Fold(s: State, lines: seq<Line>): Option<State>
    decreases |lines|
  {
    if lines == [] then Some(s)
    else match Step(s, lines[0])
      case None => None
      case Some(next) => Fold(next, lines[1..])
  }

  function Classified(lines: seq<string>): (r: seq<Line>)
    ensures |r| == |lines| && forall i :: 0 <= i < |lines| ==> r[i] == Classify(lines[i])
  {
    seq(|lines|, i requires 0 <= i < |lines| => Classify(lines[i]))
  }

  function FoldText(text: string): Option<State> {
    Fold(START, Classified(Split(text)))
  }

  /** The sections of a file, or None when the file is not readable. */
  function Parse(text: string): Option<Sections> {
    match FoldText(text)
    case None => None
    case Some(s) => Some(s.sections)
  }

  lemma {:induction false} FoldAppend(s: State, a: seq<Line>, b: seq<Line>)
    ensures Fold(s, a + b) == match Fold(s, a)
                              case None => None
                              case Some(t) => Fold(t, b)
    decreases |a|
  {
    if a == [] {
      assert a + b == b;
    } else {
      assert (a + b)[1..] == a[1..] + b;
      match Step(s, a[0])
      case None =>
      case Some(next) => FoldAppend(next, a[1..], b);
    }
  }

  /** The part of the loop that reads `key = value`. */
  method ReadEntry(line: string) returns (entry: Line)
    ensures entry == ClassifyEntry(line)
    ensures entry.BadEntry? || entry.Entry?
  {
    hide CanonicalKey;
    hide Trim;
    var cut := IndexOf(line, '=');
    if cut == |line| {
      return BadEntry;
    }
    var key, value := line[..cut], line[cut + 1..];
    var canonical := CanonicalKey(Trim(key));
    if canonical.None? {
      return BadEntry;
    }
    var comment := CommentStart(value);
    if comment < |value| {
      return Entry(canonical.value, Trim(value[..comment]));
    }
    assert value[..comment] == value;
    return Entry(canonical.value, Trim(value));
  }

  /** The loop of `read`: the same branches, with the sections and the current name updated in place. */
  method Read(text: string) returns (result: Option<Sections>)
    ensures result == Parse(text)
  {
    hide Classify;
    hide ClassifyEntry;
    hide Trim;
    hide ValidName;
    var lines := Split(text);
    ghost var kinds := Classified(lines);
    var sections: Sections := map[];
    var current := "";
    var i := 0;
    while i < |lines|
      invariant 0 <= i <= |lines|
      invariant current == "" || current in sections
      invariant FoldText(text) == Fold(Scan(sections, current), kinds[i..])
    {
      var line := lines[i];
      FoldFirst(Scan(sections, current), kinds, i);
      ClassifyCases(line);
      i := i + 1;
      var trimmed := Trim(line);
      if Skippable(trimmed) {
        continue;
      }
      if trimmed[0] == '[' {
        if trimmed[|trimmed| - 1] != ']' {
          return None;
        }
        current := Trim(trimmed[1..|trimmed| - 1]);
        if !ValidName(current) {
          return None;
        }
        if current in sections {
          return None;
        }
        sections := sections[current := map[]];
        continue;
      }
      if current == "" {
        continue;
      }
      var entry := ReadEntry(line);
      if entry.BadEntry? {
        return None;
      }
      sections := sections[current := sections[current][entry.key := entry.value]];
    }
    return Some(sections);
  }

  lemma FoldFirst(s: State, lines: seq<Line>, i: nat)
    requires i < |lines|
    ensures Fold(s, lines[i..]) == match Step(s, lines[i])
                                   case None => None
                                   case Some(next) => Fold(next, lines[i + 1..])
  {
    assert lines[i..][1..] == lines[i + 1..];
  }

  lemma ClassifyName(line: string)
    requires Classify(line).Header?
    ensures Trim(Classify(line).name) == Classify(line).name
  {
    var trimmed := Trim(line);
    TrimIdempotent(trimmed[1..|trimmed| - 1]);
  }

  lemma {:induction false} FoldNames(s: State, lines: seq<Line>)
    requires forall n :: n in s.sections ==> ValidName(n) && Trim(n) == n
    requires forall i :: 0 <= i < |lines| && lines[i].Header? ==> Trim(lines[i].name) == lines[i].name
    ensures Fold(s, lines).Some? ==> forall n :: n in Fold(s, lines).value.sections ==> ValidName(n) && Trim(n) == n
    decreases |lines|
  {
    if lines != [] {
      match Step(s, lines[0])
      case None =>
      case Some(next) => FoldNames(next, lines[1..]);
    }
  }

  /** Every section of a readable file is named by a trimmed, valid, non-empty name. */
  lemma ParsedNames(text: string)
    ensures Parse(text).Some? ==> forall n :: n in Parse(text).value ==> ValidName(n) && Trim(n) == n
  {
    var lines := Split(text);
    forall i | 0 <= i < |lines| && Classify(lines[i]).Header?
      ensures Trim(Classify(lines[i]).name) == Classify(lines[i]).name
    {
      ClassifyName(lines[i]);
    }
    FoldNames(START, Classified(lines));
  }

  // ---------- line ends at the end of a file ----------

  lemma {:induction false} IndexOfAppend(s: string, t: string, c: char)
    requires c !in t
    ensures IndexOf(s + t, c) == if IndexOf(s, c) == |s| then |s + t| else IndexOf(s, c)
  {
    if s == "" {
      assert s + t == t;
      assert IndexOf(t, c) == |t|;
    } else if s[0] != c {
      assert (s + t)[1..] == s[1..] + t;
      IndexOfAppend(s[1..], t, c);
    }
  }

  lemma {:induction false} IndexOfFirst(s: string, i: nat, c: char)
    requires i < |s| && s[i] == c && c !in s[..i]
    ensures IndexOf(s, c) == i
  {
    if i > 0 {
      assert s[0] in s[..i];
      assert s[1..][..i - 1] == s[..i][1..];
      IndexOfFirst(s[1..], i - 1, c);
    }
  }

  lemma TrimReturn(s: string)
    ensures Trim(s + "\r") == Trim(s)
  {
    TrimPadded("", s, "\r");
    assert "" + s + "\r" == s + "\r";
  }

  /** A trailing carriage return neither opens nor closes a comment, and is trimmed away. */
  lemma ReadValueReturn(raw: string)
    ensures ReadValue(raw + "\r") == ReadValue(raw)
  {
    var more := raw + "\r";
    var i, j := CommentStart(raw), CommentStart(more);
    assert forall k: nat :: k < |raw| ==> more[k] == raw[k];
    assert forall k: nat :: CommentAt(more, k) <==> CommentAt(raw, k);
    if i < |raw| {
      assert j == i;
      assert more[..j] == raw[..i];
    } else {
      assert j == |more|;
      assert more[..j] == more && raw[..i] == raw;
      TrimReturn(raw);
    }
  }

  lemma ClassifyEntryReturn(line: string)
    ensures ClassifyEntry(line + "\r") == ClassifyEntry(line)
  {
    hide CanonicalKey;
    hide ReadValue;
    var more := line + "\r";
    var i := IndexOf(line, '=');
    IndexOfAppend(line, "\r", '=');
    if i < |line| {
      assert more[..i] == line[..i];
      assert more[i + 1..] == line[i + 1..] + "\r";
      ReadValueReturn(line[i + 1..]);
    }
  }

  lemma ClassifyReturn(line: string)
    ensures Classify(line + "\r") == Classify(line)
  {
    hide ClassifyEntry;
    hide Trim;
    TrimReturn(line);
    ClassifyEntryReturn(line);
  }

  lemma FoldTextReturn(text: string)
    ensures FoldText(text + "\r") == FoldText(text)
  {
    hide Classify;
    SplitLastLine(text, "\r");
    var lines := Split(text);
    ClassifyReturn(lines[|lines| - 1]);
    assert Classified(ExtendLast(lines, "\r")) == Classified(lines);
  }

  lemma ClassifyEmpty()
    ensures Classify("") == Blank
  {}

  lemma FoldTextNewline(text: string)
    ensures FoldText(text + "\n") == FoldText(text)
  {
    assert text + "\n" + "" == text + "\n";
    SplitAppend(text, "");
    ClassifyEmpty();
    assert Classified(Split(text) + [""]) == Classified(Split(text)) + [Blank];
    FoldAppend(START, Classified(Split(text)), [Blank]);
  }

  /** Dropping the line ends at the end of a file does not change what it says. */
  lemma {:induction false} FoldTextTrimmed(text: string)
    ensures FoldText(TrimLineEnd(text)) == FoldText(text)
  {
    if text != "" && IsLineEnd(text[|text| - 1]) {
      var init := text[..|text| - 1];
      FoldTextTrimmed(init);
      if text[|text| - 1] == '\r' {
        assert text == init + "\r";
        FoldTextReturn(init);
      } else {
        assert text == init + "\n";
        FoldTextNewline(init);
      }
    }
  }

  /** What `write` puts on disk. */
  function Written(content: string): string {
    TrimLineEnd(content) + "\n"
  }

  lemma ParseWritten(content: string)
    ensures Parse(Written(content)) == Parse(content)
  {
    FoldTextTrimmed(content);
    FoldTextNewline(TrimLineEnd(content));
  }
}
