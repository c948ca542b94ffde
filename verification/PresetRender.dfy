/** Printing one section, and what the parser makes of it. */
module PresetRender {
  import opened Wrappers
  import opened Text
  import opened PresetKeys
  import opened PresetFile
  import opened Sorting

  function EntryLine(key: string, value: string): string {
    key + " = " + value
  }

  function RenderEntries(keys: seq<string>, values: Values): string
    requires forall k :: k in keys ==> k in values
  {
    if keys == [] then ""
    else EntryLine(keys[0], values[keys[0]]) + "\n" + RenderEntries(keys[1..], values)
  }

  function HeaderLine(name: string): string {
    "[" + name + "]"
  }

  /** `renderSection` for keys in a given order. */
  function RenderKeys(name: string, keys: seq<string>, values: Values): string
    requires forall k :: k in keys ==> k in values
  {
    "\n\n[" + name + "]\n" + RenderEntries(keys, values)
  }

  ghost function RenderSection(name: string, values: Values): string {
    RenderKeys(name, ListingOf(values.Keys), values)
  }

  method Render(name: string, values: Values) returns (out: string)
    ensures out == RenderSection(name, values)
  {
    out := "\n\n[" + name + "]\n";
    var keys := SortKeys(values.Keys);
    var i := 0;
    while i < |keys|
      invariant 0 <= i <= |keys|
      invariant out + RenderEntries(keys[i..], values) == RenderKeys(name, keys, values)
    {
      var line := EntryLine(keys[i], values[keys[i]]) + "\n";
      assert keys[i..][1..] == keys[i + 1..];
      assert RenderEntries(keys[i..], values) == line + RenderEntries(keys[i + 1..], values);
      Associative(out, line, RenderEntries(keys[i + 1..], values));
      out := out + line;
      i := i + 1;
    }
    assert out + "" == out;
  }

  /** Values that Put lets through. */
  predicate OneLine(value: string) {
    forall i :: 0 <= i < |value| ==> !IsLineEnd(value[i])
  }

  /** Keys as the parser returns them, values without line ends. */
  predicate Printable(values: Values) {
    forall k :: k in values ==> IsKey(k) && CanonicalKey(k) == Some(k) && OneLine(values[k])
  }

  /** What the parser reads back for a value that was written. */
  function StoredValue(value: string): string {
    ReadValue(" " + value)
  }

  function Stored(values: Values): Values {
    map k | k in values :: StoredValue(values[k])
  }

  /** A value that survives being written and read. */
  predicate RoundTrips(value: string) {
    Trim(value) == value && !HasComment(" " + value)
  }

  lemma TrimShrinks(s: string)
    ensures |Trim(s)| <= |s|
  {
    var left, right := TrimParts(s);
  }

  /** A value is read back as written exactly when it is trimmed and opens no inline comment. */
  lemma StoredValueExact(value: string)
    ensures StoredValue(value) == value <==> RoundTrips(value)
  {
    var raw := " " + value;
    var i := CommentStart(raw);
    if i < |raw| {
      TrimShrinks(raw[..i]);
    } else {
      assert raw[..i] == raw;
      assert " " + value + "" == raw;
      TrimPadded(" ", value, "");
      assert !HasComment(raw);
    }
  }

  // ---------- the printed lines ----------

  lemma ClassifyHeaderLine(name: string)
    requires ValidName(name)
    ensures Classify(HeaderLine(name)) == Header(Trim(name))
  {
    var line := HeaderLine(name);
    TrimTight(line);
    assert line[1..|line| - 1] == name;
  }

  lemma CutEntryLine(key: string, value: string)
    requires '=' !in key
    ensures var line := EntryLine(key, value);
            var i := IndexOf(line, '=');
            i < |line| && line[..i] == key + " " && line[i + 1..] == " " + value
  {
    var line := EntryLine(key, value);
    assert line[..|key| + 1] == key + " ";
    IndexOfFirst(line, |key| + 1, '=');
  }

  lemma TrimFirst(line: string)
    requires line != "" && !IsSpace(line[0])
    ensures Trim(line) != "" && Trim(line)[0] == line[0]
  {
    assert TrimLeft(line) == line;
    TrimRightNonEmpty(line);
  }

  lemma {:induction false} TrimRightNonEmpty(s: string)
    requires s != "" && !IsSpace(s[0])
    ensures TrimRightBy(s, IsSpace) != ""
  {
    if IsSpace(s[|s| - 1]) { TrimRightNonEmpty(s[..|s| - 1]); }
  }

  lemma ClassifyEntryLine(key: string, value: string)
    requires IsKey(key) && CanonicalKey(key) == Some(key)
    ensures Classify(EntryLine(key, value)) == Entry(key, StoredValue(value))
  {
    hide CanonicalKey;
    hide Classify;
    hide ReadValue;
    hide Trim;
    var line := EntryLine(key, value);
    assert line[0] == key[0];
    TrimFirst(line);
    ClassifyCases(line);
    CutEntryLine(key, value);
    assert "" + key + " " == key + " ";
    TrimPadded("", key, " ");
    TrimTight(key);
  }

  function EntryLines(keys: seq<string>, values: Values): (lines: seq<string>)
    requires forall k :: k in keys ==> k in values
    ensures |lines| == |keys|
  {
    seq(|keys|, i requires 0 <= i < |keys| => assert keys[i] in keys; EntryLine(keys[i], values[keys[i]]))
  }

  lemma {:induction false} SplitEntries(keys: seq<string>, values: Values)
    requires forall k :: k in keys ==> k in values
    requires Printable(values)
    ensures Split(RenderEntries(keys, values)) == EntryLines(keys, values) + [""]
  {
    hide Split;
    hide CanonicalKey;
    if keys == [] {
      SplitOneLine("");
    } else {
      var line := EntryLine(keys[0], values[keys[0]]);
      SplitAppend(line, RenderEntries(keys[1..], values));
      OneLineEntry(keys[0], values[keys[0]]);
      SplitOneLine(line);
      SplitEntries(keys[1..], values);
      assert EntryLines(keys, values) == [line] + EntryLines(keys[1..], values);
    }
  }

  lemma OneLineEntry(key: string, value: string)
    requires IsKey(key) && OneLine(value)
    ensures '\n' !in EntryLine(key, value)
  {}

  lemma RenderedLines(name: string, keys: seq<string>, values: Values)
    requires forall k :: k in keys ==> k in values
    ensures RenderKeys(name, keys, values)
         == "\n" + ("" + "\n" + (HeaderLine(name) + "\n" + RenderEntries(keys, values)))
  {
    hide RenderEntries;
  }

  lemma SplitRendered(base: string, name: string, keys: seq<string>, values: Values)
    requires forall k :: k in keys ==> k in values
    requires Printable(values) && ValidName(name)
    ensures Split(base + RenderKeys(name, keys, values))
         == Split(base) + (["", HeaderLine(name)] + (EntryLines(keys, values) + [""]))
  {
    hide Split;
    hide RenderEntries;
    hide RenderKeys;
    hide EntryLines;
    hide Printable;
    var header, entries := HeaderLine(name), RenderEntries(keys, values);
    var tail := header + "\n" + entries;
    RenderedLines(name, keys, values);
    SplitEntries(keys, values);
    HeaderOneLine(name);
    SplitTail(base, header, tail, entries);
  }

  lemma HeaderOneLine(name: string)
    requires ValidName(name)
    ensures '\n' !in HeaderLine(name)
  {
    assert forall i :: 0 <= i < |name| ==> !NameForbids(name[i]);
  }

  /** A blank line and a header line put between two texts. */
  lemma SplitTail(base: string, header: string, tail: string, entries: string)
    requires tail == header + "\n" + entries && '\n' !in header
    ensures Split(base + ("\n" + ("" + "\n" + tail))) == Split(base) + (["", header] + Split(entries))
  {
    hide Split;
    var blank := "" + "\n" + tail;
    Associative(base, "\n", blank);
    SplitAppend(base, blank);
    SplitAppend("", tail);
    SplitAppend(header, entries);
    SplitOneLine("");
    SplitOneLine(header);
    assert [""] + ([header] + Split(entries)) == ["", header] + Split(entries);
  }

  function Entries(keys: seq<string>, values: Values): (lines: seq<Line>)
    requires forall k :: k in keys ==> k in values
    ensures |lines| == |keys|
  {
    seq(|keys|, i requires 0 <= i < |keys| => assert keys[i] in keys; Entry(keys[i], StoredValue(values[keys[i]])))
  }

  lemma ClassifyRendered(lines: seq<string>, name: string, keys: seq<string>, values: Values)
    requires forall k :: k in keys ==> k in values
    requires Printable(values) && ValidName(name)
    ensures Classified(lines + (["", HeaderLine(name)] + (EntryLines(keys, values) + [""])))
         == Classified(lines) + ([Blank, Header(Trim(name))] + (Entries(keys, values) + [Blank]))
  {
    hide Classified;
    hide Printable;
    hide ValidName;
    var entries := EntryLines(keys, values);
    ClassifiedAppend(lines, ["", HeaderLine(name)] + (entries + [""]));
    ClassifiedAppend(["", HeaderLine(name)], entries + [""]);
    ClassifiedAppend(entries, [""]);
    ClassifyHead(name);
    ClassifyEntries(keys, values);
  }

  lemma ClassifiedAppend(a: seq<string>, b: seq<string>)
    ensures Classified(a + b) == Classified(a) + Classified(b)
  {
    hide Classify;
  }

  lemma ClassifyHead(name: string)
    requires ValidName(name)
    ensures Classified(["", HeaderLine(name)]) == [Blank, Header(Trim(name))]
    ensures Classified([""]) == [Blank]
  {
    hide Classify;
    hide ValidName;
    ClassifyEmpty();
    ClassifyHeaderLine(name);
  }

  lemma ClassifyEntries(keys: seq<string>, values: Values)
    requires forall k :: k in keys ==> k in values
    requires Printable(values)
    ensures Classified(EntryLines(keys, values)) == Entries(keys, values)
  {
    hide Classify;
    forall i | 0 <= i < |keys|
      ensures Classify(EntryLines(keys, values)[i]) == Entries(keys, values)[i]
    {
      assert keys[i] in keys;
      ClassifyEntryLine(keys[i], values[keys[i]]);
    }
  }

  function StoredAt(keys: seq<string>, values: Values): Values
    requires forall k :: k in keys ==> k in values
  {
    map k | k in keys :: StoredValue(values[k])
  }

  lemma StoredStep(m: Values, keys: seq<string>, values: Values)
    requires keys != [] && forall k :: k in keys ==> k in values
    ensures m[keys[0] := StoredValue(values[keys[0]])] + StoredAt(keys[1..], values) == m + StoredAt(keys, values)
  {
    hide StoredValue;
    assert keys == [keys[0]] + keys[1..];
  }

  lemma {:induction false} FoldEntryLines(s: State, keys: seq<string>, values: Values)
    requires s.current != ""
    requires forall k :: k in keys ==> k in values
    ensures Fold(s, Entries(keys, values)).Some?
    ensures var t := Fold(s, Entries(keys, values)).value;
            t.current == s.current &&
            t.sections == s.sections[s.current := s.sections[s.current] + StoredAt(keys, values)]
    decreases |keys|
  {
    hide StoredValue;
    var lines := Entries(keys, values);
    if keys != [] {
      var value := StoredValue(values[keys[0]]);
      var next := Step(s, lines[0]).value;
      assert lines[1..] == Entries(keys[1..], values);
      FoldEntryLines(next, keys[1..], values);
      StoredStep(s.sections[s.current], keys, values);
    } else {
      assert s.sections[s.current] + map[] == s.sections[s.current];
    }
  }

  /** The printed section, read after any readable text: a new section, or a duplicate
      that makes the file unreadable. */
  lemma FoldRendered(s: State, n: string, keys: seq<string>, values: Values)
    requires forall k :: k in keys <==> k in values
    requires n != "" && ValidName(n)
    ensures var lines := [Blank, Header(n)] + (Entries(keys, values) + [Blank]);
            if n in s.sections then Fold(s, lines) == None
            else Fold(s, lines).Some? && Fold(s, lines).value.sections == s.sections[n := Stored(values)]
  {
    hide ValidName;
    hide Fold;
    hide StoredValue;
    hide Stored;
    var entries := Entries(keys, values);
    FoldAppend(s, [Blank, Header(n)], entries + [Blank]);
    FoldBlankThen(s, Header(n));
    if n !in s.sections {
      var entered: State := Scan(s.sections[n := map[]], n);
      FoldAppend(entered, entries, [Blank]);
      FoldEntryLines(entered, keys, values);
      FoldBlank(Fold(entered, entries).value);
      StoredAtAll(keys, values);
    }
  }

  lemma StoredAtAll(keys: seq<string>, values: Values)
    requires forall k :: k in keys <==> k in values
    ensures map[] + StoredAt(keys, values) == Stored(values)
  {
    hide StoredValue;
    assert StoredAt(keys, values) == Stored(values);
    assert map[] + Stored(values) == Stored(values);
  }

  lemma FoldBlank(s: State)
    ensures Fold(s, [Blank]) == Some(s)
  {}

  lemma FoldBlankThen(s: State, line: Line)
    ensures Fold(s, [Blank, line]) == Step(s, line)
  {
    assert [Blank, line][1..] == [line] && [line][1..] == [];
    assert Fold(s, [Blank, line]) == Fold(s, [line]);
    match Step(s, line)
    case None =>
    case Some(next) => assert Fold(next, []) == Some(next);
  }

  lemma ValidTrimmedName(name: string)
    requires ValidName(name)
    ensures ValidName(Trim(name))
  {
    TrimIdempotent(name);
    var left, right := TrimParts(name);
    forall i | 0 <= i < |Trim(name)| ensures !NameForbids(Trim(name)[i]) {
      assert name[|left| + i] == Trim(name)[i];
    }
  }

  /** Appending a printed section to a readable text, whatever its name. */
  lemma AppendParses(base: string, name: string, values: Values)
    requires Parse(base).Some? && Printable(values) && ValidName(name)
    ensures Parse(TrimLineEnd(base) + RenderSection(name, values))
         == if Trim(name) in Parse(base).value then None
            else Some(Parse(base).value[Trim(name) := Stored(values)])
  {
    hide Classify;
    var trimmed, keys := TrimLineEnd(base), ListingOf(values.Keys);
    FoldTextTrimmed(base);
    SplitRendered(trimmed, name, keys, values);
    ClassifyRendered(Split(trimmed), name, keys, values);
    FoldAppend(START, Classified(Split(trimmed)), [Blank, Header(Trim(name))] + (Entries(keys, values) + [Blank]));
    ValidTrimmedName(name);
    FoldRendered(FoldText(base).value, Trim(name), keys, values);
  }

  // ---------- the text of a file that was written ----------

  lemma EntryLineEnd(key: string, value: string)
    requires OneLine(value)
    ensures var line := EntryLine(key, value); line != "" && !IsLineEnd(line[|line| - 1])
  {}

  lemma {:induction false} EntriesEnd(keys: seq<string>, values: Values) returns (body: string)
    requires keys != [] && forall k :: k in keys ==> k in values
    requires Printable(values)
    ensures RenderEntries(keys, values) == body + "\n"
    ensures body != "" && !IsLineEnd(body[|body| - 1])
    decreases |keys|
  {
    hide CanonicalKey;
    hide EntryLine;
    var line := EntryLine(keys[0], values[keys[0]]);
    EntryLineEnd(keys[0], values[keys[0]]);
    if |keys| == 1 {
      assert keys[1..] == [];
      body := line;
      assert line + "\n" + "" == line + "\n";
    } else {
      var rest := EntriesEnd(keys[1..], values);
      body := line + "\n" + rest;
      Associative(line + "\n", rest, "\n");
    }
  }

  lemma RenderedEnd(name: string, keys: seq<string>, values: Values) returns (body: string)
    requires forall k :: k in keys ==> k in values
    requires Printable(values)
    ensures RenderKeys(name, keys, values) == body + "\n"
    ensures body != "" && !IsLineEnd(body[|body| - 1])
  {
    hide CanonicalKey;
    hide OneLine;
    hide EntryLine;
    var head := "\n\n[" + name + "]";
    if keys == [] {
      body := head;
      assert head + "\n" + "" == head + "\n";
    } else {
      var rest := EntriesEnd(keys, values);
      body := head + "\n" + rest;
      Associative(head + "\n", rest, "\n");
    }
  }

  /** A printed section ends with one line break, so writing it out adds and drops nothing. */
  lemma WrittenRendered(base: string, name: string, keys: seq<string>, values: Values)
    requires forall k :: k in keys ==> k in values
    requires Printable(values)
    ensures Written(base + RenderKeys(name, keys, values)) == base + RenderKeys(name, keys, values)
  {
    hide Printable;
    hide RenderKeys;
    var body := RenderedEnd(name, keys, values);
    Associative(base, body, "\n");
    assert (base + body)[|base + body| - 1] == body[|body| - 1];
    TrimRightPadding(base + body, "\n", IsLineEnd);
  }

  /** The lines of a file after a Put: the lines it had, a blank one, and the printed section. */
  lemma WrittenLines(base: string, name: string, values: Values)
    requires Printable(values) && ValidName(name)
    ensures Split(Written(TrimLineEnd(base) + RenderSection(name, values)))
         == Split(TrimLineEnd(base))
            + (["", HeaderLine(name)] + (EntryLines(ListingOf(values.Keys), values) + [""]))
  {
    var keys := ListingOf(values.Keys);
    WrittenRendered(TrimLineEnd(base), name, keys, values);
    SplitRendered(TrimLineEnd(base), name, keys, values);
  }
}
