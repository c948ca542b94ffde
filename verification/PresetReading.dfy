/** What `models.ini` says, told from its lines without running the parser over them. */
module PresetReading {
  import opened Wrappers
  import opened Text
  import opened PresetKeys
  import opened PresetFile

  // ---------- single lines ----------

  /** A line that is blank, or whose first character other than space is `;` or `#`, says nothing;
      it can be put at any place in any text. */
  lemma CommentsIgnored(text: string, k: nat, line: string)
    requires k <= |Split(text)| && '\n' !in line
    requires Trim(line) == "" || Trim(line)[0] == ';' || Trim(line)[0] == '#'
    ensures Parse(Join(Split(text)[..k] + [line] + Split(text)[k..])) == Parse(text)
  {
    var lines := Split(text);
    IgnoredLine(line);
    hide *;
    Inserted(lines, k, line);
    SplitJoin(lines[..k] + [line] + lines[k..]);
    InsertedFolds(lines, k, line);
    ParseOf(text);
    ParseOf(Join(lines[..k] + [line] + lines[k..]));
  }

  lemma IgnoredLine(line: string)
    requires Trim(line) == "" || Trim(line)[0] == ';' || Trim(line)[0] == '#'
    ensures Classify(line) == Blank
  {
    hide Trim;
  }

  lemma ParseOf(text: string)
    ensures Parse(text) == match Fold(START, Classified(Split(text))) case None => None case Some(s) => Some(s.sections)
  {}

  lemma Inserted(lines: seq<string>, k: nat, line: string)
    requires k <= |lines| && '\n' !in line && forall i :: 0 <= i < |lines| ==> '\n' !in lines[i]
    ensures var more := lines[..k] + [line] + lines[k..]; forall i :: 0 <= i < |more| ==> '\n' !in more[i]
  {
    var more := lines[..k] + [line] + lines[k..];
    forall i | 0 <= i < |more| ensures '\n' !in more[i] {
      assert more[i] == if i < k then lines[i] else if i == k then line else lines[i - 1];
    }
  }

  lemma InsertedFolds(lines: seq<string>, k: nat, line: string)
    requires k <= |lines| && Classify(line) == Blank
    ensures Fold(START, Classified(lines[..k] + [line] + lines[k..])) == Fold(START, Classified(lines))
  {
    hide Classify;
    var a, b := Classified(lines[..k]), Classified(lines[k..]);
    assert Classified(lines[..k] + [line] + lines[k..]) == a + ([Blank] + b);
    assert Classified(lines) == a + b;
    FoldAppend(START, a, [Blank] + b);
    FoldAppend(START, a, b);
    assert ([Blank] + b)[1..] == b;
  }

  /** Brackets, with space around them and inside, name a section. */
  lemma HeaderRead(left: string, inner: string, right: string)
    requires AllSpace(left) && AllSpace(right)
    ensures Classify(left + ("[" + inner + "]") + right) == Header(Trim(inner))
  {
    var bracketed := "[" + inner + "]";
    TrimPadded(left, bracketed, right);
    TrimTight(bracketed);
    assert bracketed[1..|bracketed| - 1] == inner;
  }

  /** An open bracket without a closing one at the end of the line is an error. */
  lemma OpenHeaderRead(left: string, rest: string, right: string)
    requires AllSpace(left) && AllSpace(right)
    requires rest == "" || (rest[|rest| - 1] != ']' && !IsSpace(rest[|rest| - 1]))
    ensures Classify(left + ("[" + rest) + right) == BadHeader
  {
    TrimPadded(left, "[" + rest, right);
    TrimTight("[" + rest);
  }

  /** A key that has a canonical form, the first `=`, and a value up to the first `;` or `#` that a space or tab precedes. */
  lemma EntryRead(key: string, value: string, cut: nat)
    requires '=' !in key && CanonicalKey(key).Some?
    requires cut <= |value|
    requires forall i :: 0 <= i < cut && i + 1 < |value| && (value[i] == ' ' || value[i] == '\t') ==> value[i + 1] != ';' && value[i + 1] != '#'
    requires cut < |value| ==> cut + 1 < |value| && (value[cut] == ' ' || value[cut] == '\t') && (value[cut + 1] == ';' || value[cut + 1] == '#')
    ensures Classify(key + "=" + value) == Entry(CanonicalKey(key).value, Trim(value[..cut]))
  {
    EntryLineStart(key, value);
    CommentCut(value, cut);
    EntryCut(key, value);
    hide Trim;
    hide CanonicalKey;
    hide IndexOf;
    hide CommentStart;
    var line := key + "=" + value;
    assert Classify(line) == ClassifyEntry(line);
  }

  lemma CommentCut(value: string, cut: nat)
    requires cut <= |value|
    requires forall i :: 0 <= i < cut && i + 1 < |value| && (value[i] == ' ' || value[i] == '\t') ==> value[i + 1] != ';' && value[i + 1] != '#'
    requires cut < |value| ==> cut + 1 < |value| && (value[cut] == ' ' || value[cut] == '\t') && (value[cut + 1] == ';' || value[cut + 1] == '#')
    ensures CommentStart(value) == cut
  {
    assert forall j: nat :: j < cut ==> !CommentAt(value, j);
    assert cut < |value| ==> CommentAt(value, cut);
    hide CommentAt;
  }

  lemma EntryCut(key: string, value: string)
    requires '=' !in key
    ensures var line := key + "=" + value;
            IndexOf(line, '=') == |key| && line[..|key|] == key && line[|key| + 1..] == value
            && CanonicalKey(Trim(key)) == CanonicalKey(key)
  {
    var line := key + "=" + value;
    assert line[..|key|] == key;
    IndexOfFirst(line, |key|, '=');
    TrimIdempotent(key);
  }

  /** What begins a line with a good key is neither a comment nor a header. */
  lemma EntryLineStart(key: string, value: string)
    requires CanonicalKey(key).Some?
    ensures var trimmed := Trim(key + "=" + value); trimmed != "" && trimmed[0] !in {';', '#', '['}
  {
    hide *;
    KeyStart(key);
    var left, right := TrimParts(key);
    Padded(key, left, Trim(key), right, value);
    NoSpace();
    var rest := Trim(key) + right + "=" + value;
    TrimPadded(left, rest, "");
    TrimKeeps(rest);
  }

  lemma Padded(key: string, left: string, k: string, right: string, value: string)
    requires key == left + k + right
    ensures key + "=" + value == left + (k + right + "=" + value) + ""
  {}

  lemma NoSpace()
    ensures AllSpace("")
  {}

  lemma KeyStart(key: string)
    requires CanonicalKey(key).Some?
    ensures Trim(key) != "" && !IsSpace(Trim(key)[0]) && Trim(key)[0] !in {';', '#', '['}
  {
    hide Trim;
    var trimmed := Trim(key);
    if !(ENV_PREFIX <= trimmed) { assert IsKey(trimmed); }
  }

  lemma TrimKeeps(s: string)
    requires s != "" && !IsSpace(s[0])
    ensures Trim(s) != "" && Trim(s)[0] == s[0]
  {
    hide IsSpace;
    assert TrimLeft(s) == s;
    var w := TrimRightSplit(s, IsSpace);
    assert Trim(s) == "" ==> w == s;
  }

  /** Any other line is an error under a header: it has no `=`, or what precedes the first one is no key. */
  lemma BadLineRead(line: string)
    requires Trim(line) != "" && Trim(line)[0] !in {';', '#', '['}
    requires forall i :: 0 <= i < |line| && line[i] == '=' && '=' !in line[..i] ==> CanonicalKey(line[..i]) == None
    ensures Classify(line) == BadEntry
  {
    hide CanonicalKey;
    var i := IndexOf(line, '=');
    if i < |line| { CanonicalTrimmed(line[..i]); }
    hide Trim;
  }

  lemma CanonicalTrimmed(key: string)
    ensures CanonicalKey(Trim(key)) == CanonicalKey(key)
  {
    TrimIdempotent(key);
  }

  // ---------- the whole file ----------

  /** No broken header, only valid names, no name twice, and no line that is neither an entry nor blank under a header. */
  ghost predicate Readable(lines: seq<Line>) {
    && (forall i :: 0 <= i < |lines| ==> lines[i] != BadHeader)
    && (forall i :: 0 <= i < |lines| && lines[i].Header? ==> ValidName(lines[i].name))
    && (forall i, j :: 0 <= i < j < |lines| && lines[i].Header? && lines[j].Header? ==> lines[i].name != lines[j].name)
    && (forall i, j :: 0 <= i < j < |lines| && lines[i].Header? ==> lines[j] != BadEntry)
  }

  /** The name of the last header, or "" where there is none. */
  function LastHeader(lines: seq<Line>): string {
    if lines == [] then ""
    else if lines[|lines| - 1].Header? then lines[|lines| - 1].name
    else LastHeader(lines[..|lines| - 1])
  }

  /** The value of the last entry with a key under the header of a name. */
  function LastValue(lines: seq<Line>, name: string, key: string): Option<string> {
    if lines == [] then None
    else
      var init, last := lines[..|lines| - 1], lines[|lines| - 1];
      if last.Entry? && last.key == key && LastHeader(init) == name then Some(last.value)
      else LastValue(init, name, key)
  }

  function ValueAt(values: Values, key: string): Option<string> {
    if key in values then Some(values[key]) else None
  }

  lemma {:induction false} HeaderThere(lines: seq<Line>)
    ensures LastHeader(lines) != "" ==> Header(LastHeader(lines)) in lines
  {
    if lines != [] { HeaderThere(lines[..|lines| - 1]); }
  }

  lemma {:induction false} NoValue(lines: seq<Line>, name: string, key: string)
    requires name != "" && Header(name) !in lines
    ensures LastValue(lines, name, key) == None
  {
    if lines != [] {
      var init := lines[..|lines| - 1];
      NoValue(init, name, key);
      HeaderThere(init);
    }
  }

  /** The parser's state after some lines, told from the lines. */
  ghost predicate Says(lines: seq<Line>, s: State) {
    && s.current == LastHeader(lines)
    && (forall n :: n in s.sections <==> Header(n) in lines)
    && (forall n, k :: n in s.sections ==> ValueAt(s.sections[n], k) == LastValue(lines, n, k))
  }

  lemma ReadableInit(init: seq<Line>, last: Line)
    ensures Readable(init + [last]) <==>
            && Readable(init)
            && last != BadHeader
            && (last.Header? ==> ValidName(last.name) && last !in init)
            && (last == BadEntry ==> forall i :: 0 <= i < |init| ==> !init[i].Header?)
  {
    hide ValidName;
    var lines := init + [last];
    assert lines[|init|] == last && forall i :: 0 <= i < |init| ==> lines[i] == init[i];
    if Readable(lines) {
      assert forall i, j :: 0 <= i < j < |init| && init[i].Header? && init[j].Header? ==> lines[i].name != lines[j].name;
      assert forall i, j :: 0 <= i < j < |init| && init[i].Header? ==> lines[j] != BadEntry;
    }
  }

  lemma {:induction false} NoHeader(lines: seq<Line>)
    requires forall i :: 0 <= i < |lines| && lines[i].Header? ==> lines[i].name != ""
    ensures LastHeader(lines) == "" <==> forall i :: 0 <= i < |lines| ==> !lines[i].Header?
  {
    if lines != [] {
      var init := lines[..|lines| - 1];
      NoHeader(init);
      assert forall i :: 0 <= i < |init| ==> init[i] == lines[i];
    }
  }

  lemma StepSays(init: seq<Line>, s: State, last: Line)
    requires Readable(init) && Says(init, s)
    ensures Step(s, last).Some? <==> Readable(init + [last])
    ensures Step(s, last).Some? ==> Says(init + [last], Step(s, last).value)
  {
    ReadableInit(init, last);
    NamesNotEmpty(init);
    NoHeader(init);
    hide Readable;
    hide ValidName;
    hide Says;
    match last
    case Header(name) =>
      SaysHas(init, s, name);
      NotEmpty(name);
      if Step(s, last).Some? { HeaderSays(init, s, name); }
    case Entry(key, value) => SaysHas(init, s, ""); EntrySays(init, s, key, value);
    case _ => QuietSays(init, s, last);
  }

  lemma SaysHas(lines: seq<Line>, s: State, name: string)
    requires Says(lines, s)
    ensures s.current == LastHeader(lines) && (name in s.sections <==> Header(name) in lines)
  {}

  lemma MoreLines(init: seq<Line>, last: Line)
    ensures (init + [last])[..|init + [last]| - 1] == init
    ensures forall n :: Header(n) in init + [last] <==> Header(n) in init || Header(n) == last
    ensures LastHeader(init + [last]) == if last.Header? then last.name else LastHeader(init)
    ensures forall n, k :: LastValue(init + [last], n, k)
                        == if last.Entry? && last.key == k && LastHeader(init) == n then Some(last.value) else LastValue(init, n, k)
  {
    assert (init + [last])[..|init + [last]| - 1] == init;
  }

  lemma HeaderSays(init: seq<Line>, s: State, name: string)
    requires Says(init, s) && name != "" && Header(name) !in init
    ensures name !in s.sections && Says(init + [Header(name)], Scan(s.sections[name := map[]], name))
  {
    MoreLines(init, Header(name));
    forall k ensures LastValue(init, name, k) == None { NoValue(init, name, k); }
    hide LastValue;
    hide LastHeader;
  }

  lemma EntrySays(init: seq<Line>, s: State, key: string, value: string)
    requires Says(init, s) && (s.current != "" ==> s.current in s.sections) && "" !in s.sections
    ensures Says(init + [Entry(key, value)], Step(s, Entry(key, value)).value)
  {
    MoreLines(init, Entry(key, value));
    hide LastValue;
    hide LastHeader;
  }

  lemma QuietSays(init: seq<Line>, s: State, last: Line)
    requires Says(init, s) && !last.Header? && !last.Entry?
    ensures s.current == LastHeader(init) && Says(init + [last], s)
  {
    MoreLines(init, last);
    hide LastValue;
    hide LastHeader;
  }

  lemma NotEmpty(name: string)
    ensures ValidName(name) ==> name != ""
  {
    TrimTight("");
  }

  lemma NamesNotEmpty(lines: seq<Line>)
    requires Readable(lines)
    ensures forall i :: 0 <= i < |lines| && lines[i].Header? ==> lines[i].name != ""
  {
    NotEmpty("");
  }

  lemma {:induction false} FoldSays(lines: seq<Line>)
    ensures Fold(START, lines).Some? <==> Readable(lines)
    ensures Fold(START, lines).Some? ==> Says(lines, Fold(START, lines).value)
  {
    hide Step;
    hide Says;
    if lines == [] {
      SaysNothing();
    } else {
      var init, last := lines[..|lines| - 1], lines[|lines| - 1];
      assert lines == init + [last];
      FoldSays(init);
      FoldAppend(START, init, [last]);
      ReadableInit(init, last);
      hide Readable;
      if Fold(START, init).Some? {
        var s := Fold(START, init).value;
        assert [last][1..] == [];
        StepSays(init, s, last);
      }
    }
  }

  lemma SaysNothing()
    ensures Says([], START)
  {}

  /** A file is readable exactly when its lines are in order; its sections are its headers, and each key of a section
      has the value of the last entry with that key between its header and the next. */
  lemma ReadExact(text: string)
    ensures var lines := Classified(Split(text));
            && (Parse(text).Some? <==> Readable(lines))
            && (Parse(text).Some? ==>
                  && (forall n :: n in Parse(text).value <==> Header(n) in lines)
                  && (forall n, k :: n in Parse(text).value ==> ValueAt(Parse(text).value[n], k) == LastValue(lines, n, k)))
  {
    FoldSays(Classified(Split(text)));
    hide Readable;
    hide LastValue;
    hide Classified;
  }
}
