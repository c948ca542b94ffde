/** The preset store: whole-file reads and rewrites of `models.ini`, as operations on a map. */
module PresetStore {
  import opened Wrappers
  import opened Text
  import opened PresetKeys
  import opened PresetFile
  import opened PresetRemove
  import opened PresetRender
  import opened Sorting

  datatype Error = Invalid | Exists | NotFound | Io

  /** Whether the operating system lets one read and one replacement of the file succeed. */
  datatype Disk = Disk(readFails: bool, writeFails: bool)

  /** A missing file reads as an empty store. */
  function Content(file: Option<string>): string {
    match file
    case None => "version = 1\n"
    case Some(text) => text
  }

  /** The presets a file stands for. None when the file is not readable. */
  function SectionsOf(file: Option<string>): Option<Sections> {
    match file
    case None => Some(map[])
    case Some(text) => Parse(text)
  }

  /** A line that begins with neither a bracket nor a comment mark is text before the first header. */
  lemma PlainLine(line: string)
    requires line != "" && !IsSpace(line[0]) && line[0] !in {'[', ';', '#'}
    ensures Step(START, Classify(line)) == Some(START)
  {
    hide ClassifyEntry;
    TrimFirst(line);
    assert Classify(line) == ClassifyEntry(line);
    EntryOrNot(line);
  }

  lemma EntryOrNot(line: string)
    ensures ClassifyEntry(line).BadEntry? || ClassifyEntry(line).Entry?
  {
    hide CanonicalKey;
    hide ReadValue;
  }

  lemma EmptyStore()
    ensures Parse(Content(None)) == SectionsOf(None)
  {
    hide Classify;
    hide Split;
    var text := "version = 1";
    assert text + "\n" == Content(None);
    FoldTextNewline(text);
    SplitOneLine(text);
    PlainLine(text);
    var kinds := Classified([text]);
    assert kinds[1..] == [];
    assert Fold(START, kinds[1..]) == Some(START);
  }

  // ---------- the values of a Put ----------

  /** Every key has a canonical form, no two have the same one, and no value holds a line end. */
  predicate Acceptable(values: Values) {
    AcceptableOn(values, values.Keys)
  }

  predicate AcceptableOn(values: Values, keys: set<string>)
    requires keys <= values.Keys
  {
    && (forall k :: k in keys ==> CanonicalKey(k).Some? && OneLine(values[k]))
    && (forall j, k :: j in keys && k in keys && j != k ==> CanonicalKey(j) != CanonicalKey(k))
  }

  /** The store takes values whose keys all have different canonical forms, and which hold no line break. */
  lemma AcceptableExact(values: Values)
    ensures Acceptable(values) <==>
            && (forall k :: k in values ==> CanonicalKey(k).Some? && '\r' !in values[k] && '\n' !in values[k])
            && (forall j, k :: j in values && k in values && CanonicalKey(j) == CanonicalKey(k) ==> j == k)
  {
    hide CanonicalKey;
    forall k | k in values ensures OneLine(values[k]) <==> '\r' !in values[k] && '\n' !in values[k] {
      assert forall i :: 0 <= i < |values[k]| ==> values[k][i] in values[k];
    }
    hide OneLine;
  }

  function Canonicalized(values: Values): Values
    requires Acceptable(values)
  {
    map k | k in values :: CanonicalKey(k).value := values[k]
  }

  lemma CanonicalizedPrintable(values: Values)
    requires Acceptable(values)
    ensures Printable(Canonicalized(values))
  {
    hide CanonicalKey;
    forall k | k in values
      ensures IsKey(CanonicalKey(k).value) && CanonicalKey(CanonicalKey(k).value) == CanonicalKey(k)
    {
      CanonicalIdempotent(k);
    }
  }

  /** The loop that canonicalises the keys of a Put, in whatever order the map yields them. */
  method CanonicalValues(values: Values) returns (r: Option<Values>)
    ensures r == if Acceptable(values) then Some(Canonicalized(values)) else None
  {
    hide CanonicalKey;
    hide OneLine;
    hide Canonicalized;
    hide AcceptableOn;
    hide Collected;
    AcceptableNone(values);
    CollectedNone(values);
    var out: Values := map[];
    var rest := values.Keys;
    ghost var done := {};
    while rest != {}
      invariant done <= values.Keys && rest == values.Keys - done
      invariant AcceptableOn(values, done)
      invariant Collected(values, done, out)
      decreases |rest|
    {
      var key :| key in rest;
      var canonical := CanonicalKey(key);
      if Acceptable(values) { AcceptableNeeds(values, key); }
      if canonical.None? {
        return None;
      }
      CollectedHas(values, done, out, canonical.value);
      if canonical.value in out {
        return None;
      }
      if !OneLine(values[key]) {
        return None;
      }
      AcceptableStep(values, done, key);
      CollectedMore(values, done, out, key);
      out := out[canonical.value := values[key]];
      rest := rest - {key};
      done := done + {key};
    }
    assert done == values.Keys;
    CanonicalizedUnique(values, out);
    return Some(out);
  }

  /** The canonical keys so far, with their values. */
  ghost predicate Collected(values: Values, done: set<string>, out: Values)
    requires done <= values.Keys
  {
    && (forall k :: k in done ==> CanonicalKey(k).Some? && CanonicalKey(k).value in out && out[CanonicalKey(k).value] == values[k])
    && (forall c :: c in out ==> exists k :: k in done && CanonicalKey(k) == Some(c))
  }

  lemma CollectedNone(values: Values)
    ensures Collected(values, {}, map[])
  {}

  lemma CollectedHas(values: Values, done: set<string>, out: Values, c: string)
    requires done <= values.Keys && Collected(values, done, out)
    ensures c in out <==> exists k :: k in done && CanonicalKey(k) == Some(c)
  {
    hide CanonicalKey;
  }

  lemma CollectedMore(values: Values, done: set<string>, out: Values, key: string)
    requires done <= values.Keys && key in values && Collected(values, done, out)
    requires CanonicalKey(key).Some? && CanonicalKey(key).value !in out
    ensures Collected(values, done + {key}, out[CanonicalKey(key).value := values[key]])
  {
    hide CanonicalKey;
  }

  lemma AcceptableNone(values: Values)
    ensures AcceptableOn(values, {})
  {}

  lemma AcceptableNeeds(values: Values, key: string)
    requires key in values && Acceptable(values)
    ensures CanonicalKey(key).Some? && OneLine(values[key])
    ensures forall k :: k in values && k != key ==> CanonicalKey(k) != CanonicalKey(key)
  {
    hide CanonicalKey;
    hide OneLine;
  }

  lemma AcceptableStep(values: Values, done: set<string>, key: string)
    requires done <= values.Keys && key in values && AcceptableOn(values, done)
    requires CanonicalKey(key).Some? && OneLine(values[key])
    requires forall k :: k in done ==> CanonicalKey(k) != CanonicalKey(key)
    ensures AcceptableOn(values, done + {key})
  {
    hide CanonicalKey;
    hide OneLine;
  }

  lemma CanonicalizedUnique(values: Values, out: Values)
    requires Acceptable(values)
    requires Collected(values, values.Keys, out)
    ensures out == Canonicalized(values)
  {
    hide CanonicalKey;
    hide OneLine;
  }

  // ---------- Put and Delete on the file ----------

  ghost function PutText(content: string, exists_: bool, name: string, values: Values): string {
    TrimLineEnd(if exists_ then RemoveText(content, name) else content) + RenderSection(name, values)
  }

  ghost function PutFile(file: Option<string>, name: string, values: Values, createOnly: bool, disk: Disk)
    : (Option<string>, Option<Error>)
  {
    if !ValidName(name) || !Acceptable(values) then (file, Some(Invalid))
    else if disk.readFails then (file, Some(Io))
    else match SectionsOf(file)
      case None => (file, Some(Invalid))
      case Some(sections) =>
        if createOnly && name in sections then (file, Some(Exists))
        else if disk.writeFails then (file, Some(Io))
        else (Some(Written(PutText(Content(file), name in sections, name, Canonicalized(values)))), None)
  }

  function DeleteFile(file: Option<string>, name: string, disk: Disk): (Option<string>, Option<Error>) {
    if !ValidName(name) || name == "*" then (file, Some(Invalid))
    else if disk.readFails then (file, Some(Io))
    else match SectionsOf(file)
      case None => (file, Some(Invalid))
      case Some(sections) =>
        if name !in sections then (file, None)
        else if disk.writeFails then (file, Some(Io))
        else (Some(Written(RemoveText(Content(file), name))), None)
  }

  function LoadError(file: Option<string>, disk: Disk): Option<Error> {
    if disk.readFails then Some(Io) else if SectionsOf(file).None? then Some(Invalid) else None
  }

  /** The values of some sections, in the order of their names. */
  method Named(names: seq<string>, sections: Sections) returns (presets: seq<(string, Values)>)
    requires forall n :: n in names ==> n in sections
    ensures |presets| == |names|
    ensures forall i :: 0 <= i < |presets| ==>
      presets[i].0 == names[i] && presets[i].0 in sections && presets[i].1 == sections[names[i]]
  {
    presets := [];
    for i := 0 to |names|
      invariant |presets| == i
      invariant forall j :: 0 <= j < i ==> presets[j].0 == names[j] && presets[j].1 == sections[names[j]]
    {
      presets := presets + [(names[i], sections[names[i]])];
    }
  }

  class Store {
    var file: Option<string>

    constructor (file: Option<string>)
      ensures this.file == file
    {
      this.file := file;
    }

    method Load(disk: Disk) returns (sections: Option<Sections>, content: string, error: Option<Error>)
      ensures error == LoadError(file, disk)
      ensures error.None? ==> sections == SectionsOf(file) && content == Content(file)
    {
      if disk.readFails {
        return None, "", Some(Io);
      }
      if file.None? {
        return Some(map[]), "version = 1\n", None;
      }
      sections := Read(file.value);
      content := file.value;
      error := if sections.None? then Some(Invalid) else None;
    }

    /** The presets in the order of their names, without the section that applies to all of them. */
    method List(disk: Disk) returns (presets: seq<(string, Values)>, error: Option<Error>)
      ensures error == LoadError(file, disk)
      ensures error.None? ==>
        var m := SectionsOf(file).value;
        |presets| == |ListingOf(m.Keys - {"*"})|
        && forall i :: 0 <= i < |presets| ==>
             presets[i].0 == ListingOf(m.Keys - {"*"})[i] && presets[i].0 in m && presets[i].1 == m[presets[i].0]
    {
      var sections, _, e := Load(disk);
      if e.Some? {
        return [], e;
      }
      hide SectionsOf;
      var names := SortKeys(sections.value.Keys - {"*"});
      assert forall n :: n in names ==> n in sections.value.Keys - {"*"};
      presets := Named(names, sections.value);
      error := None;
    }

    method Get(name: string, disk: Disk) returns (values: Option<Values>, error: Option<Error>)
      ensures LoadError(file, disk).Some? ==> error == LoadError(file, disk) && values == None
      ensures LoadError(file, disk).None? ==>
        if name in SectionsOf(file).value then error == None && values == Some(SectionsOf(file).value[name])
        else error == Some(NotFound) && values == None
    {
      var sections, _, e := Load(disk);
      if e.Some? {
        return None, e;
      }
      if name !in sections.value {
        return None, Some(NotFound);
      }
      return Some(sections.value[name]), None;
    }

    method Put(name: string, values: Values, createOnly: bool, disk: Disk) returns (error: Option<Error>)
      modifies this
      ensures (file, error) == PutFile(old(file), name, values, createOnly, disk)
    {
      if !ValidName(name) {
        return Some(Invalid);
      }
      var canonical := CanonicalValues(values);
      if canonical.None? {
        return Some(Invalid);
      }
      var sections, content, e := Load(disk);
      if e.Some? {
        return e;
      }
      var found := name in sections.value;
      if createOnly && found {
        return Some(Exists);
      }
      if found {
        content := RemoveSection(content, name);
      }
      var rendered := Render(name, canonical.value);
      error := Write(TrimLineEnd(content) + rendered, disk);
    }

    method Delete(name: string, disk: Disk) returns (error: Option<Error>)
      modifies this
      ensures (file, error) == DeleteFile(old(file), name, disk)
    {
      if !ValidName(name) {
        return Some(Invalid);
      }
      if name == "*" {
        return Some(Invalid);
      }
      var sections, content, e := Load(disk);
      if e.Some? {
        return e;
      }
      if name !in sections.value {
        return None;
      }
      content := RemoveSection(content, name);
      error := Write(content, disk);
    }

    method Write(content: string, disk: Disk) returns (error: Option<Error>)
      modifies this
      ensures if disk.writeFails then file == old(file) && error == Some(Io)
              else file == Some(Written(content)) && error == None
    {
      if disk.writeFails {
        return Some(Io);
      }
      file := Some(Written(content));
      return None;
    }
  }

  // ---------- the file is a map ----------

  datatype Op =
    | Put(name: string, values: Values, createOnly: bool, disk: Disk)
    | Delete(name: string, disk: Disk)

  ghost function Apply(file: Option<string>, op: Op): (Option<string>, Option<Error>) {
    match op
    case Put(name, values, createOnly, disk) => PutFile(file, name, values, createOnly, disk)
    case Delete(name, disk) => DeleteFile(file, name, disk)
  }

  /** The same operation on what the file says. None is an unreadable file, which every operation leaves as it is.
      A failed operation changes nothing; a Put that is not trimmed can make the file unreadable. */
  function ApplyState(state: Option<Sections>, op: Op): (Option<Sections>, Option<Error>) {
    match op
    case Put(name, values, createOnly, disk) =>
      if !ValidName(name) || !Acceptable(values) then (state, Some(Invalid))
      else if disk.readFails then (state, Some(Io))
      else if state.None? then (None, Some(Invalid))
      else if createOnly && name in state.value then (state, Some(Exists))
      else if disk.writeFails then (state, Some(Io))
      else (PutState(state.value, name, Stored(Canonicalized(values))), None)
    case Delete(name, disk) =>
      if !ValidName(name) || name == "*" then (state, Some(Invalid))
      else if disk.readFails then (state, Some(Io))
      else if state.None? then (None, Some(Invalid))
      else if name !in state.value then (state, None)
      else if disk.writeFails then (state, Some(Io))
      else (Some(state.value - {name}), None)
  }

  /** What a written Put leaves: the section is stored under the trimmed name, once or once too often. */
  function PutState(m: Sections, name: string, values: Values): Option<Sections> {
    if Trim(name) != name && Trim(name) in m then None else Some((m - {name})[Trim(name) := values])
  }

  /** The operation on the map alone, for names without space around them. */
  function ApplyMap(m: Sections, op: Op): (Sections, Option<Error>) {
    match op
    case Put(name, values, createOnly, disk) =>
      if !ValidName(name) || !Acceptable(values) then (m, Some(Invalid))
      else if disk.readFails then (m, Some(Io))
      else if createOnly && name in m then (m, Some(Exists))
      else if disk.writeFails then (m, Some(Io))
      else (m[name := Stored(Canonicalized(values))], None)
    case Delete(name, disk) =>
      if !ValidName(name) || name == "*" then (m, Some(Invalid))
      else if disk.readFails then (m, Some(Io))
      else if name !in m then (m, None)
      else if disk.writeFails then (m, Some(Io))
      else (m - {name}, None)
  }

  lemma ContentParses(file: Option<string>)
    ensures Parse(Content(file)) == SectionsOf(file)
  {
    EmptyStore();
  }

  /** What a file says after any successful Put, whatever the name and the values. */
  lemma PutExact(file: Option<string>, name: string, values: Values)
    requires SectionsOf(file).Some? && ValidName(name) && Acceptable(values)
    ensures var m := SectionsOf(file).value;
            Parse(Written(PutText(Content(file), name in m, name, Canonicalized(values))))
            == PutState(m, name, Stored(Canonicalized(values)))
  {
    hide Parse;
    hide RemoveText;
    hide RenderSection;
    hide Written;
    hide Acceptable;
    hide ValidName;
    hide Stored;
    hide TrimLineEnd;
    hide Trim;
    ContentParses(file);
    CanonicalizedPrintable(values);
    var m := SectionsOf(file).value;
    var base := if name in m then RemoveText(Content(file), name) else Content(file);
    RemoveParses(Content(file), name);
    assert m - {name} == if name in m then m - {name} else m;
    assert Parse(base) == Some(m - {name});
    AppendParses(base, name, Canonicalized(values));
    ParseWritten(PutText(Content(file), name in m, name, Canonicalized(values)));
  }

  lemma PutStates(file: Option<string>, name: string, values: Values, createOnly: bool, disk: Disk)
    ensures var (next, error) := PutFile(file, name, values, createOnly, disk);
            (SectionsOf(next), error) == ApplyState(SectionsOf(file), Op.Put(name, values, createOnly, disk))
  {
    hide Parse;
    hide PutText;
    hide Written;
    hide Acceptable;
    hide ValidName;
    hide Stored;
    hide Trim;
    hide Canonicalized;
    hide PutState;
    if ValidName(name) && Acceptable(values) && SectionsOf(file).Some? { PutExact(file, name, values); }
  }

  lemma DeleteStates(file: Option<string>, name: string, disk: Disk)
    ensures var (next, error) := DeleteFile(file, name, disk);
            (SectionsOf(next), error) == ApplyState(SectionsOf(file), Op.Delete(name, disk))
  {
    hide Parse;
    hide RemoveText;
    hide Written;
    hide ValidName;
    if SectionsOf(file).Some? {
      ContentParses(file);
      RemoveParses(Content(file), name);
      ParseWritten(RemoveText(Content(file), name));
    }
  }

  /** What one operation does to what the file says, for every file, name and failure. */
  lemma StepExact(file: Option<string>, op: Op)
    ensures var (next, error) := Apply(file, op);
            (SectionsOf(next), error) == ApplyState(SectionsOf(file), op)
  {
    hide PutFile;
    hide DeleteFile;
    hide SectionsOf;
    hide ApplyState;
    match op
    case Put(name, values, createOnly, disk) => PutStates(file, name, values, createOnly, disk);
    case Delete(name, disk) => DeleteStates(file, name, disk);
  }

  lemma TrimmedStep(m: Sections, op: Op)
    requires Trim(op.name) == op.name
    ensures ApplyState(Some(m), op) == (Some(ApplyMap(m, op).0), ApplyMap(m, op).1)
  {
    hide Acceptable;
    hide ValidName;
    hide Stored;
    hide Trim;
    hide Canonicalized;
    if op.Put? && Acceptable(op.values) {
      var stored := Stored(Canonicalized(op.values));
      assert (m - {op.name})[op.name := stored] == m[op.name := stored];
    }
  }

  /** One operation with a trimmed name does to the map exactly what it says. */
  lemma StepRefines(file: Option<string>, op: Op)
    requires SectionsOf(file).Some? && Trim(op.name) == op.name
    ensures var (next, error) := Apply(file, op);
            SectionsOf(next).Some? && (SectionsOf(next).value, error) == ApplyMap(SectionsOf(file).value, op)
  {
    hide Apply;
    hide ApplyMap;
    hide ApplyState;
    hide SectionsOf;
    hide Trim;
    StepExact(file, op);
    TrimmedStep(SectionsOf(file).value, op);
  }

  ghost function Run(file: Option<string>, ops: seq<Op>): Option<string>
    decreases |ops|
  {
    if ops == [] then file else Run(Apply(file, ops[0]).0, ops[1..])
  }

  function RunState(state: Option<Sections>, ops: seq<Op>): Option<Sections>
    decreases |ops|
  {
    if ops == [] then state else RunState(ApplyState(state, ops[0]).0, ops[1..])
  }

  function RunMap(m: Sections, ops: seq<Op>): Sections
    decreases |ops|
  {
    if ops == [] then m else RunMap(ApplyMap(m, ops[0]).0, ops[1..])
  }

  /** What the file says after every run of Puts and Deletes, whatever the names and the failures. */
  lemma {:induction false} RunExact(file: Option<string>, ops: seq<Op>)
    ensures SectionsOf(Run(file, ops)) == RunState(SectionsOf(file), ops)
    decreases |ops|
  {
    hide Apply;
    hide ApplyState;
    hide SectionsOf;
    if ops != [] {
      StepExact(file, ops[0]);
      RunExact(Apply(file, ops[0]).0, ops[1..]);
    }
  }

  /** Every run with trimmed names, failing or not, keeps the file readable and equal to the map. */
  lemma {:induction false} RunRefines(file: Option<string>, ops: seq<Op>)
    requires SectionsOf(file).Some?
    requires forall i :: 0 <= i < |ops| ==> Trim(ops[i].name) == ops[i].name
    ensures SectionsOf(Run(file, ops)) == Some(RunMap(SectionsOf(file).value, ops))
    decreases |ops|
  {
    hide Apply;
    hide ApplyMap;
    hide SectionsOf;
    hide Trim;
    if ops != [] {
      StepRefines(file, ops[0]);
      RunRefines(Apply(file, ops[0]).0, ops[1..]);
    }
  }

  /** The Put, if any, that the operation writes under a name whose trimmed form is another section already. */
  predicate Clashes(state: Option<Sections>, op: Op) {
    && op.Put? && state.Some? && ValidName(op.name) && Acceptable(op.values)
    && !op.disk.readFails && !op.disk.writeFails
    && Trim(op.name) != op.name && Trim(op.name) in state.value && !(op.createOnly && op.name in state.value)
  }

  function Clashing(state: Option<Sections>, ops: seq<Op>): bool
    decreases |ops|
  {
    ops != [] && (Clashes(state, ops[0]) || Clashing(ApplyState(state, ops[0]).0, ops[1..]))
  }

  /** A readable file stays readable over a run exactly when no Put of the run clashes. */
  lemma {:induction false} RunReadable(file: Option<string>, ops: seq<Op>)
    requires SectionsOf(file).Some?
    ensures SectionsOf(Run(file, ops)).Some? <==> !Clashing(SectionsOf(file), ops)
    decreases |ops|
  {
    hide Apply;
    hide SectionsOf;
    hide Trim;
    hide ValidName;
    hide Acceptable;
    hide Stored;
    hide Canonicalized;
    if ops != [] {
      StepExact(file, ops[0]);
      var next := Apply(file, ops[0]).0;
      if SectionsOf(next).Some? {
        RunReadable(next, ops[1..]);
      } else {
        RunExact(next, ops[1..]);
        Unreadable(ops[1..]);
      }
    }
  }

  /** No operation repairs an unreadable file. */
  lemma {:induction false} Unreadable(ops: seq<Op>)
    ensures RunState(None, ops) == None
    decreases |ops|
  {
    hide ValidName;
    hide Acceptable;
    if ops != [] { Unreadable(ops[1..]); }
  }

  // ---------- lines on disk ----------

  /** The lines of a text after a section was taken out; a text has one line at least. */
  function KeptLines(content: string, name: string): (lines: seq<string>)
    ensures |lines| > 0
  {
    var left := RemoveLines(Split(content), name);
    if left == [] then [""] else left
  }

  lemma RemovedSplit(content: string, name: string)
    ensures Split(RemoveText(content, name)) == KeptLines(content, name)
  {
    hide Join;
    hide BlockOf;
    var left := RemoveLines(Split(content), name);
    var all := Split(content);
    assert forall i :: 0 <= i < |left| ==> left[i] in all;
    if left == [] {
      assert Join([]) == "" by { JoinNone(); }
    } else {
      SplitJoin(left);
    }
  }

  lemma JoinNone()
    ensures Join([]) == ""
  {}

  /** After a Put the file holds the lines outside the replaced section, all of them and in order, without the
      line ends and empty lines at the end of the text, and then a blank line and the printed section. */
  lemma PutKeepsLines(content: string, name: string, values: Values)
    requires Parse(content).Some? && ValidName(name) && Acceptable(values)
    ensures var found := name in Parse(content).value;
            var printed := Canonicalized(values);
            Split(Written(PutText(content, found, name, printed)))
            == TrimLines(if found then KeptLines(content, name) else Split(content))
               + (["", HeaderLine(name)] + (EntryLines(ListingOf(printed.Keys), printed) + [""]))
  {
    hide Parse;
    hide Written;
    hide Acceptable;
    hide ValidName;
    hide RenderSection;
    hide RemoveText;
    hide KeptLines;
    hide TrimLines;
    CanonicalizedPrintable(values);
    var base := if name in Parse(content).value then RemoveText(content, name) else content;
    WrittenLines(base, name, Canonicalized(values));
    RemovedSplit(content, name);
    SplitTrimmed(base);
  }

  /** After a Delete the file holds the lines outside the section, all of them and in order, without the line ends
      and empty lines at the end of the text. */
  lemma DeleteKeepsLines(content: string, name: string)
    ensures Split(Written(RemoveText(content, name))) == TrimLines(KeptLines(content, name)) + [""]
  {
    hide RemoveText;
    hide KeptLines;
    hide TrimLines;
    hide Split;
    hide TrimLineEnd;
    var text := RemoveText(content, name);
    RemovedSplit(content, name);
    SplitTrimmed(text);
    assert TrimLineEnd(text) + "\n" == TrimLineEnd(text) + "\n" + "";
    SplitAppend(TrimLineEnd(text), "");
    SplitOneLine("");
  }

  /** A Put is read back as written exactly when the name is trimmed and every value round-trips. */
  lemma PutRoundTrip(file: Option<string>, name: string, values: Values)
    requires SectionsOf(file).Some? && ValidName(name) && Acceptable(values)
    ensures var m := SectionsOf(file).value;
            Parse(Written(PutText(Content(file), name in m, name, Canonicalized(values))))
              == Some(m[name := Canonicalized(values)])
            <==> Trim(name) == name && forall k :: k in values ==> RoundTrips(values[k])
  {
    hide Parse;
    hide PutText;
    hide Stored;
    hide RoundTrips;
    hide StoredValue;
    hide Written;
    hide ValidName;
    hide Acceptable;
    hide Canonicalized;
    hide Trim;
    var m := SectionsOf(file).value;
    var c := Canonicalized(values);
    PutExact(file, name, values);
    forall k | k in values ensures StoredValue(values[k]) == values[k] <==> RoundTrips(values[k]) {
      StoredValueExact(values[k]);
    }
    StoredFixpoint(values);
    PutBack(m, name, Trim(name), Stored(c), c);
  }

  lemma PutBack(m: Sections, name: string, trimmed: string, stored: Values, values: Values)
    ensures (m - {name})[trimmed := stored] == m[name := values] <==> trimmed == name && stored == values
  {
    var left, right := (m - {name})[trimmed := stored], m[name := values];
    assert name in right && right[name] == values;
    if trimmed == name && stored == values {
      assert left == right;
    }
  }

  lemma StoredFixpoint(values: Values)
    requires Acceptable(values)
    ensures Stored(Canonicalized(values)) == Canonicalized(values)
            <==> forall k :: k in values ==> StoredValue(values[k]) == values[k]
  {
    hide CanonicalKey;
    hide StoredValue;
    var c := Canonicalized(values);
    if Stored(c) == c {
      forall k | k in values ensures StoredValue(values[k]) == values[k] {
        var canonical := CanonicalKey(k).value;
        assert c[canonical] == values[k];
        assert Stored(c)[canonical] == StoredValue(c[canonical]);
      }
    }
  }

  // ---------- inputs at which the promises fail ----------

  const FINE := Disk(false, false)

  lemma PlainNames()
    ensures Trim("a") == "a" && ValidName("a") && Trim(" a") == "a" && ValidName(" a")
  {
    TrimTight("a");
    TrimPadded(" ", "a", "");
    assert " " + "a" + "" == " a";
  }

  lemma NoValues()
    ensures Acceptable(map[]) && Stored(Canonicalized(map[])) == map[]
  {}

  /** From a missing file: two Puts of one name, the second with a space before it, leave a file that nothing can read. */
  lemma UntrimmedPutBreaksFile()
    ensures SectionsOf(Run(None, [Op.Put("a", map[], false, FINE), Op.Put(" a", map[], false, FINE)])) == None
  {
    hide Run;
    hide SectionsOf;
    hide Acceptable;
    hide Stored;
    hide Canonicalized;
    hide Trim;
    hide ValidName;
    var ops := [Op.Put("a", map[], false, FINE), Op.Put(" a", map[], false, FINE)];
    PlainNames();
    NoValues();
    RunExact(None, ops);
    assert SectionsOf(None) == Some(map[]) by { NoFile(); }
    assert ops[1..] == [Op.Put(" a", map[], false, FINE)] && ops[1..][1..] == [];
    var none: Sections := map[];
    var values: Values := map[];
    assert (none - {"a"})["a" := values] == map["a" := values];
    assert ApplyState(Some(none), ops[0]).0 == Some(map["a" := values]);
    assert ApplyState(Some(map["a" := values]), ops[1]).0 == None;
    assert RunState(Some(none), ops) == RunState(Some(map["a" := values]), ops[1..]);
    Unreadable(ops[1..][1..]);
  }

  lemma NoFile()
    ensures SectionsOf(None) == Some(map[])
  {}

  /** A value that begins with a space, or holds a comment mark after one, does not come back as it was put. */
  lemma SpacedValueIsCut(value: string)
    requires value == " v" || value == "v ;w"
    ensures Acceptable(map["k" := value]) && ValidName("a")
    ensures SectionsOf(Apply(None, Op.Put("a", map["k" := value], false, FINE)).0)
         != Some(map["a" := Canonicalized(map["k" := value])])
  {
    hide SectionsOf;
    hide Parse;
    hide PutText;
    hide Written;
    hide Canonicalized;
    hide Trim;
    hide CanonicalKey;
    hide ValidName;
    var values := map["k" := value];
    PlainNames();
    NoFile();
    PlainKey();
    SpacedValues();
    assert Acceptable(values);
    assert "k" in values && !RoundTrips(values["k"]);
    hide Acceptable;
    PutRoundTrip(None, "a", values);
    WrittenStates(PutText(Content(None), false, "a", Canonicalized(values)));
    var none: Sections := map[];
    assert "a" !in none && none["a" := Canonicalized(values)] == map["a" := Canonicalized(values)];
  }

  lemma WrittenStates(text: string)
    ensures SectionsOf(Some(Written(text))) == Parse(Written(text))
  {}

  lemma PlainKey()
    ensures CanonicalKey("k").Some?
  {
    hide AliasOf;
    SpellingOfKey("k");
  }

  lemma SpacedValues()
    ensures !RoundTrips(" v") && !RoundTrips("v ;w") && OneLine(" v") && OneLine("v ;w")
  {
    hide Trim;
    TrimTight("v");
    TrimPadded(" ", "v", "");
    assert " " + "v" + "" == " v";
    assert CommentAt(" " + "v ;w", 2);
  }
}
