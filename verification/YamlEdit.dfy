/** Edits of the node tree of `config.yaml`, and what the file means before and after them. */
module YamlEdit {
  import opened Wrappers
  import opened ConfigLists

  /** A mapping's flat content is its list of keys and values. A null keeps its text. */
  datatype Node = Mapping(entries: seq<Entry>) | Sequence(items: seq<Node>) | Scalar(text: string) | Null(text: string)

  datatype Entry = Entry(key: string, value: Node)

  const ROUTER := "router"
  const AUTOSTART := "autostart_presets"
  const DEFAULT_PRESET := "default_preset"
  const MODELS_MAX := "models_max"
  const ROUTER_FIELDS := {AUTOSTART, DEFAULT_PRESET, MODELS_MAX}

  /** The place of a key; the length of the list when the key is absent. */
  function IndexOf(entries: seq<Entry>, key: string): (i: nat)
    ensures i <= |entries| && (i < |entries| ==> entries[i].key == key)
    ensures forall j :: 0 <= j < i ==> entries[j].key != key
  {
    if entries == [] || entries[0].key == key then 0 else 1 + IndexOf(entries[1..], key)
  }

  function Lookup(entries: seq<Entry>, key: string): Option<Node> {
    var i := IndexOf(entries, key);
    if i < |entries| then Some(entries[i].value) else None
  }

  /** Replaces the value of a key in its place, or adds the key at the end. */
  function Put(entries: seq<Entry>, key: string, value: Node): seq<Entry> {
    var i := IndexOf(entries, key);
    if i < |entries| then entries[i := Entry(key, value)] else entries + [Entry(key, value)]
  }

  method MappingValue(entries: seq<Entry>, key: string) returns (value: Option<Node>)
    ensures value == Lookup(entries, key)
  {
    for i := 0 to |entries|
      invariant forall j :: 0 <= j < i ==> entries[j].key != key
    {
      if entries[i].key == key {
        return Some(entries[i].value);
      }
    }
    return None;
  }

  // ---------- items of a sequence ----------

  /** The text a node carries as its value. */
  function Text(node: Node): string {
    if node.Scalar? || node.Null? then node.text else ""
  }

  function Texts(items: seq<Node>): (r: seq<string>)
    ensures |r| == |items| && forall i :: 0 <= i < |r| ==> r[i] == Text(items[i])
  {
    if items == [] then [] else [Text(items[0])] + Texts(items[1..])
  }

  function KeepItems(items: seq<Node>, remove: set<string>): seq<Node> {
    if items == [] then []
    else if Text(items[0]) in remove then KeepItems(items[1..], remove)
    else [items[0]] + KeepItems(items[1..], remove)
  }

  lemma {:induction false} KeepMore(items: seq<Node>, item: Node, remove: set<string>)
    ensures KeepItems(items + [item], remove)
         == if Text(item) in remove then KeepItems(items, remove) else KeepItems(items, remove) + [item]
  {
    if items == [] {
      assert items + [item] == [item];
    } else {
      assert (items + [item])[1..] == items[1..] + [item];
      KeepMore(items[1..], item, remove);
    }
  }

  lemma KeepNone(remove: set<string>)
    ensures KeepItems([], remove) == []
  {}

  /** Filters in the array it reads from: what is written never overtakes what is read. */
  method FilterInPlace(content: array<Node>, remove: set<string>) returns (kept: nat, changed: bool)
    modifies content
    ensures kept <= content.Length
    ensures content[..kept] == KeepItems(old(content[..]), remove)
    ensures forall j :: kept <= j < content.Length ==> content[j] == old(content[j])
    ensures changed <==> exists item :: item in old(content[..]) && Text(item) in remove
  {
    hide Text;
    hide KeepItems;
    kept, changed := 0, false;
    ghost var given := content[..];
    KeepNone(remove);
    for i := 0 to content.Length
      invariant kept <= i
      invariant content[..kept] == KeepItems(given[..i], remove)
      invariant forall j :: kept <= j < content.Length ==> content[j] == given[j]
      invariant changed <==> exists j :: 0 <= j < i && Text(given[j]) in remove
    {
      var item := content[i];
      assert given[..i + 1] == given[..i] + [item];
      KeepMore(given[..i], item, remove);
      if Text(item) in remove {
        changed := true;
      } else {
        content[kept] := item;
        kept := kept + 1;
      }
    }
    assert given[..content.Length] == given;
  }

  /** `removeSeqItems` on the content of a sequence node. */
  method RemoveSeqItems(items: seq<Node>, remove: set<string>) returns (left: seq<Node>, changed: bool)
    ensures left == KeepItems(items, remove)
    ensures changed <==> exists item :: item in items && Text(item) in remove
  {
    var content := new Node[|items|](i requires 0 <= i < |items| => items[i]);
    assert content[..] == items;
    var kept;
    kept, changed := FilterInPlace(content, remove);
    left := content[..kept];
  }

  method AppendNameIfAbsent(items: seq<Node>, name: string) returns (more: seq<Node>, changed: bool)
    ensures changed <==> name !in Texts(items)
    ensures more == if changed then items + [Scalar(name)] else items
  {
    hide Text;
    ghost var texts := Texts(items);
    for i := 0 to |items|
      invariant forall j :: 0 <= j < i ==> texts[j] != name
    {
      assert texts[i] == Text(items[i]);
      if Text(items[i]) == name {
        return items, false;
      }
    }
    return items + [Scalar(name)], true;
  }

  // ---------- the two edits ----------

  /** The entries of the router section, made when it is missing and wanted; none when it is no mapping. */
  function RouterSection(root: seq<Entry>, create: bool): Option<seq<Entry>> {
    match Lookup(root, ROUTER)
    case None => if create then Some([]) else None
    case Some(Mapping(entries)) => Some(entries)
    case Some(_) => None
  }

  function WithRouter(root: seq<Entry>, router: seq<Entry>): Node {
    Mapping(Put(root, ROUTER, Mapping(router)))
  }

  /** `setAutostartPreset`: the document after the edit, when there is any. */
  function SetAutostart(document: Node, name: string, enabled: bool): Option<Node> {
    if !document.Mapping? then None
    else match RouterSection(document.entries, enabled)
      case None => None
      case Some(router) =>
        match Lookup(router, AUTOSTART)
        case None => if enabled then Some(WithRouter(document.entries, Put(router, AUTOSTART, Sequence([Scalar(name)])))) else None
        case Some(Sequence(items)) =>
          if enabled then
            if name in Texts(items) then None
            else Some(WithRouter(document.entries, Put(router, AUTOSTART, Sequence(items + [Scalar(name)]))))
          else
            if name !in Texts(items) then None
            else Some(WithRouter(document.entries, Put(router, AUTOSTART, Sequence(KeepItems(items, {name})))))
        case Some(_) => None
  }

  /** A node with its value emptied in place; its kind stays. */
  function Emptied(node: Node): Node {
    match node
    case Scalar(_) => Scalar("")
    case Null(_) => Null("")
    case _ => node
  }

  function ClearDefault(router: seq<Entry>, remove: set<string>): Option<seq<Entry>> {
    match Lookup(router, DEFAULT_PRESET)
    case None => None
    case Some(node) => if Text(node) in remove then Some(Put(router, DEFAULT_PRESET, Emptied(node))) else None
  }

  function ClearAutostart(router: seq<Entry>, remove: set<string>): Option<seq<Entry>> {
    match Lookup(router, AUTOSTART)
    case Some(Sequence(items)) =>
      if exists t :: t in Texts(items) && t in remove then Some(Put(router, AUTOSTART, Sequence(KeepItems(items, remove)))) else None
    case _ => None
  }

  /** `removePresetReferenceNodes` */
  function RemoveReferences(document: Node, remove: set<string>): Option<Node> {
    if !document.Mapping? then None
    else match RouterSection(document.entries, false)
      case None => None
      case Some(router) =>
        var cleared := ClearDefault(router, remove);
        var between := if cleared.Some? then cleared.value else router;
        match ClearAutostart(between, remove)
        case Some(done) => Some(WithRouter(document.entries, done))
        case None => if cleared.Some? then Some(WithRouter(document.entries, between)) else None
  }

  // ---------- what the file means ----------

  /** How numbers are read, and whether all the other entries are acceptable. */
  datatype Env = Env(number: string -> Option<int>, others: (seq<Entry>, seq<Entry>) -> bool)

  datatype Config = Config(modelsMax: int, defaultPreset: string, autostart: seq<string>)

  predicate Unique(entries: seq<Entry>) {
    forall i, j :: 0 <= i < j < |entries| ==> entries[i].key != entries[j].key
  }

  function Others(entries: seq<Entry>, keys: set<string>): seq<Entry> {
    if entries == [] then []
    else (if entries[0].key in keys then [] else [entries[0]]) + Others(entries[1..], keys)
  }

  /** A missing or zero maximum is 1. */
  function DecodeMax(env: Env, node: Option<Node>): Option<int> {
    match node
    case None => Some(1)
    case Some(Null(_)) => Some(1)
    case Some(Scalar(text)) => if env.number(text) == Some(0) then Some(1) else env.number(text)
    case Some(_) => None
  }

  function DecodeDefault(node: Option<Node>): Option<string> {
    match node
    case None => Some("")
    case Some(Null(_)) => Some("")
    case Some(Scalar(text)) => Some(text)
    case Some(_) => None
  }

  predicate AllScalar(items: seq<Node>) {
    forall i :: 0 <= i < |items| ==> items[i].Scalar?
  }

  function DecodeAutostart(node: Option<Node>): Option<seq<string>> {
    match node
    case None => Some([])
    case Some(Null(_)) => Some([])
    case Some(Sequence(items)) => if AllScalar(items) then Some(Texts(items)) else None
    case Some(_) => None
  }

  /** The router section with the other entries around it, decoded and validated. */
  function ParseRouter(env: Env, around: seq<Entry>, router: seq<Entry>): Option<Config> {
    var modelsMax := DecodeMax(env, Lookup(router, MODELS_MAX));
    var defaultPreset := DecodeDefault(Lookup(router, DEFAULT_PRESET));
    var autostart := DecodeAutostart(Lookup(router, AUTOSTART));
    if !Unique(router) || !env.others(around, Others(router, ROUTER_FIELDS)) then None
    else if modelsMax.None? || defaultPreset.None? || autostart.None? then None
    else if modelsMax.value < 1 || |autostart.value| > modelsMax.value then None
    else Some(Config(modelsMax.value, defaultPreset.value, autostart.value))
  }

  /** What is inside a section that may be missing or null. */
  function SectionEntries(node: Option<Node>): Option<seq<Entry>> {
    match node
    case None => Some([])
    case Some(Null(_)) => Some([])
    case Some(Mapping(entries)) => Some(entries)
    case Some(_) => None
  }

  function Parse(env: Env, document: Node): Option<Config> {
    match SectionEntries(Some(document))
    case None => None
    case Some(top) =>
      match SectionEntries(Lookup(top, ROUTER))
      case None => None
      case Some(router) => if Unique(top) then ParseRouter(env, Others(top, {ROUTER}), router) else None
  }

  // ---------- lists of entries ----------

  lemma {:induction false} OthersPut(entries: seq<Entry>, key: string, value: Node, keys: set<string>)
    requires key in keys
    ensures Others(Put(entries, key, value), keys) == Others(entries, keys)
  {
    if entries == [] {
    } else if entries[0].key == key {
      assert Put(entries, key, value)[1..] == entries[1..];
    } else {
      OthersPut(entries[1..], key, value, keys);
      assert Put(entries, key, value)[1..] == Put(entries[1..], key, value);
    }
  }

  lemma UniquePut(entries: seq<Entry>, key: string, value: Node)
    requires Unique(entries)
    ensures Unique(Put(entries, key, value))
  {}

  lemma IndexUnique(entries: seq<Entry>, key: string, i: nat)
    requires i <= |entries| && (i < |entries| ==> entries[i].key == key)
    requires forall j :: 0 <= j < i ==> entries[j].key != key
    ensures IndexOf(entries, key) == i
  {}

  lemma LookupPut(entries: seq<Entry>, key: string, value: Node, other: string)
    ensures Lookup(Put(entries, key, value), other) == if other == key then Some(value) else Lookup(entries, other)
  {
    var done := Put(entries, key, value);
    if other == key {
      IndexUnique(done, key, IndexOf(entries, key));
    } else {
      var i := IndexOf(entries, other);
      if i < |entries| {
        IndexUnique(done, other, i);
      } else {
        IndexUnique(done, other, |done|);
      }
    }
  }

  lemma {:induction false} KeepTexts(items: seq<Node>, remove: set<string>)
    ensures Texts(KeepItems(items, remove)) == Without(Texts(items), remove)
  {
    hide Text;
    if items != [] {
      KeepTexts(items[1..], remove);
      assert Texts(items)[1..] == Texts(items[1..]);
    }
  }

  lemma {:induction false} KeepScalars(items: seq<Node>, remove: set<string>)
    requires AllScalar(items)
    ensures AllScalar(KeepItems(items, remove))
  {
    hide Text;
    if items != [] { KeepScalars(items[1..], remove); }
  }

  lemma TextsMore(items: seq<Node>, name: string)
    ensures Texts(items + [Scalar(name)]) == Texts(items) + [name]
  {}

  // ---------- the edits refine the list operations ----------

  /** Whether an autostart entry can be added: the sections on the way are missing or of the right kind, not null. */
  predicate Editable(document: Node) {
    && document.Mapping?
    && RouterSection(document.entries, true).Some?
    && var names := Lookup(RouterSection(document.entries, true).value, AUTOSTART);
       names.None? || names.value.Sequence?
  }

  function RouterOf(document: Node): seq<Entry> {
    if !document.Mapping? || RouterSection(document.entries, true).None? then []
    else RouterSection(document.entries, true).value
  }

  /** Nothing but the named router fields differs. */
  predicate Untouched(before: Node, after: Node, fields: set<string>) {
    && before.Mapping? && after.Mapping?
    && Others(after.entries, {ROUTER}) == Others(before.entries, {ROUTER})
    && Others(RouterOf(after), fields) == Others(RouterOf(before), fields)
  }

  lemma ParseEdited(env: Env, document: Node, router: seq<Entry>)
    requires document.Mapping? && Unique(document.entries)
    ensures Parse(env, WithRouter(document.entries, router)) == ParseRouter(env, Others(document.entries, {ROUTER}), router)
    ensures RouterOf(WithRouter(document.entries, router)) == router
    ensures Others(WithRouter(document.entries, router).entries, {ROUTER}) == Others(document.entries, {ROUTER})
  {
    hide ParseRouter;
    hide Put;
    hide Unique;
    hide Lookup;
    UniquePut(document.entries, ROUTER, Mapping(router));
    LookupPut(document.entries, ROUTER, Mapping(router), ROUTER);
    OthersPut(document.entries, ROUTER, Mapping(router), {ROUTER});
  }

  /** A valid document is its router section, as far as there is one, and what is around it. */
  lemma ParseParts(env: Env, document: Node)
    requires Parse(env, document).Some?
    ensures document.Mapping? ==> Unique(document.entries)
    ensures ParseRouter(env, if document.Mapping? then Others(document.entries, {ROUTER}) else [], RouterOf(document)) == Parse(env, document)
    ensures DecodeAutostart(Lookup(RouterOf(document), AUTOSTART)) == Some(Parse(env, document).value.autostart)
    ensures DecodeDefault(Lookup(RouterOf(document), DEFAULT_PRESET)) == Some(Parse(env, document).value.defaultPreset)
  {
    hide Unique;
  }

  lemma ParsePut(env: Env, around: seq<Entry>, router: seq<Entry>, node: Node)
    requires ParseRouter(env, around, router).Some? && DecodeAutostart(Some(node)).Some?
    ensures var c := ParseRouter(env, around, router).value;
            var names := DecodeAutostart(Some(node)).value;
            ParseRouter(env, around, Put(router, AUTOSTART, node))
            == if |names| <= c.modelsMax then Some(c.(autostart := names)) else None
    ensures Others(Put(router, AUTOSTART, node), {AUTOSTART}) == Others(router, {AUTOSTART})
  {
    hide Lookup;
    hide Put;
    hide Unique;
    hide Others;
    hide DecodeMax;
    hide DecodeDefault;
    hide DecodeAutostart;
    UniquePut(router, AUTOSTART, node);
    OthersPut(router, AUTOSTART, node, ROUTER_FIELDS);
    OthersPut(router, AUTOSTART, node, {AUTOSTART});
    LookupPut(router, AUTOSTART, node, MODELS_MAX);
    LookupPut(router, AUTOSTART, node, DEFAULT_PRESET);
    LookupPut(router, AUTOSTART, node, AUTOSTART);
  }

  /** Enabling appends the name once and fails exactly at the cap; where a section is null it does nothing at all. */
  lemma EnableExact(env: Env, document: Node, name: string)
    requires Parse(env, document).Some?
    ensures var c := Parse(env, document).value;
            var edited := SetAutostart(document, name, true);
            && (edited.Some? <==> Editable(document) && name !in c.autostart)
            && (!Editable(document) ==> c.autostart == [])
            && (edited.Some? ==>
                  && Parse(env, edited.value) == (if |c.autostart| < c.modelsMax then Some(c.(autostart := AppendIfAbsent(c.autostart, name))) else None)
                  && Untouched(document, edited.value, {AUTOSTART}) && Editable(edited.value))
  {
    hide Lookup;
    hide Put;
    hide Unique;
    hide Others;
    var router := RouterOf(document);
    ParseParts(env, document);
    NoEntries(AUTOSTART);
    if Editable(document) {
      var top := document.entries;
      var items := if Lookup(router, AUTOSTART).Some? then Lookup(router, AUTOSTART).value.items else [];
      TextsMore(items, name);
      assert items == [] ==> items + [Scalar(name)] == [Scalar(name)];
      var node := Sequence(items + [Scalar(name)]);
      ParsePut(env, Others(top, {ROUTER}), router, node);
      ParseEdited(env, document, Put(router, AUTOSTART, node));
      StaysEditable(document, node);
    }
  }

  lemma NoEntries(key: string)
    ensures Lookup([], key) == None
  {}

  lemma StaysEditable(document: Node, node: Node)
    requires document.Mapping?
    ensures Editable(WithRouter(document.entries, Put(RouterOf(document), AUTOSTART, node))) <==> node.Sequence?
  {
    hide Lookup;
    hide Put;
    var router := Put(RouterOf(document), AUTOSTART, node);
    LookupPut(RouterOf(document), AUTOSTART, node, AUTOSTART);
    LookupPut(document.entries, ROUTER, Mapping(router), ROUTER);
  }

  /** Disabling removes every copy of the name, keeps the order of the others, and always leaves a valid file. */
  lemma DisableExact(env: Env, document: Node, name: string)
    requires Parse(env, document).Some?
    ensures var c := Parse(env, document).value;
            var edited := SetAutostart(document, name, false);
            && (edited.Some? <==> name in c.autostart)
            && (edited.Some? ==>
                  && Parse(env, edited.value) == Some(c.(autostart := Without(c.autostart, {name})))
                  && Untouched(document, edited.value, {AUTOSTART}) && (Editable(edited.value) <==> Editable(document)))
  {
    hide Lookup;
    hide Put;
    hide Unique;
    hide Others;
    var router := RouterOf(document);
    ParseParts(env, document);
    NoEntries(AUTOSTART);
    var node := Lookup(router, AUTOSTART);
    if node.Some? && node.value.Sequence? {
      var top := document.entries;
      KeepTexts(node.value.items, {name});
      KeepScalars(node.value.items, {name});
      var left := Sequence(KeepItems(node.value.items, {name}));
      ParsePut(env, Others(top, {ROUTER}), router, left);
      ParseEdited(env, document, Put(router, AUTOSTART, left));
      StaysEditable(document, left);
    }
  }

  function Cleared(c: Config, remove: set<string>): Config {
    c.(defaultPreset := if c.defaultPreset in remove then "" else c.defaultPreset, autostart := Without(c.autostart, remove))
  }

  lemma ParsePutDefault(env: Env, around: seq<Entry>, router: seq<Entry>, node: Node)
    requires ParseRouter(env, around, router).Some? && DecodeDefault(Some(node)).Some?
    ensures ParseRouter(env, around, Put(router, DEFAULT_PRESET, Emptied(node)))
         == Some(ParseRouter(env, around, router).value.(defaultPreset := ""))
    ensures Lookup(Put(router, DEFAULT_PRESET, Emptied(node)), AUTOSTART) == Lookup(router, AUTOSTART)
    ensures Others(Put(router, DEFAULT_PRESET, Emptied(node)), {AUTOSTART, DEFAULT_PRESET}) == Others(router, {AUTOSTART, DEFAULT_PRESET})
  {
    hide Lookup;
    hide Put;
    hide Unique;
    hide Others;
    hide DecodeMax;
    hide DecodeAutostart;
    var emptied := Emptied(node);
    UniquePut(router, DEFAULT_PRESET, emptied);
    OthersPut(router, DEFAULT_PRESET, emptied, ROUTER_FIELDS);
    OthersPut(router, DEFAULT_PRESET, emptied, {AUTOSTART, DEFAULT_PRESET});
    LookupPut(router, DEFAULT_PRESET, emptied, MODELS_MAX);
    LookupPut(router, DEFAULT_PRESET, emptied, DEFAULT_PRESET);
    LookupPut(router, DEFAULT_PRESET, emptied, AUTOSTART);
  }

  lemma ClearDefaultExact(env: Env, around: seq<Entry>, router: seq<Entry>, remove: set<string>)
    requires ParseRouter(env, around, router).Some?
    ensures var c := ParseRouter(env, around, router).value;
            var cleared := ClearDefault(router, remove);
            var between := if cleared.Some? then cleared.value else router;
            && ParseRouter(env, around, between) == Some(c.(defaultPreset := if c.defaultPreset in remove then "" else c.defaultPreset))
            && Lookup(between, AUTOSTART) == Lookup(router, AUTOSTART)
            && Others(between, {AUTOSTART, DEFAULT_PRESET}) == Others(router, {AUTOSTART, DEFAULT_PRESET})
  {
    hide Lookup;
    hide Put;
    hide Unique;
    hide Others;
    hide DecodeMax;
    hide DecodeAutostart;
    var node := Lookup(router, DEFAULT_PRESET);
    if node.Some? && Text(node.value) in remove { ParsePutDefault(env, around, router, node.value); }
  }

  lemma ClearAutostartExact(env: Env, around: seq<Entry>, router: seq<Entry>, remove: set<string>)
    requires ParseRouter(env, around, router).Some?
    ensures var c := ParseRouter(env, around, router).value;
            var cleared := ClearAutostart(router, remove);
            var done := if cleared.Some? then cleared.value else router;
            && ParseRouter(env, around, done) == Some(c.(autostart := Without(c.autostart, remove)))
            && (Lookup(done, AUTOSTART).Some? && Lookup(done, AUTOSTART).value.Sequence? <==> Lookup(router, AUTOSTART).Some? && Lookup(router, AUTOSTART).value.Sequence?)
            && (Lookup(done, AUTOSTART).None? <==> Lookup(router, AUTOSTART).None?)
            && Others(done, {AUTOSTART, DEFAULT_PRESET}) == Others(router, {AUTOSTART, DEFAULT_PRESET})
  {
    hide Lookup;
    hide Put;
    hide Unique;
    hide Others;
    hide DecodeMax;
    hide DecodeDefault;
    hide Texts;
    hide KeepItems;
    hide Without;
    var c := ParseRouter(env, around, router).value;
    var node := Lookup(router, AUTOSTART);
    assert Without([], remove) == [] by { WithoutNone([], remove); }
    if node.Some? && node.value.Sequence? {
      var items := node.value.items;
      assert c.autostart == Texts(items);
      KeepTexts(items, remove);
      KeepScalars(items, remove);
      var left := Sequence(KeepItems(items, remove));
      ParsePut(env, around, router, left);
      OthersPut(router, AUTOSTART, left, {AUTOSTART, DEFAULT_PRESET});
      LookupPut(router, AUTOSTART, left, AUTOSTART);
      if ClearAutostart(router, remove).None? { WithoutNone(Texts(items), remove); }
    }
  }

  /** Removing references empties the default if it is removed and filters the autostart list;
      it always leaves a valid file, and nothing else differs. */
  lemma RemoveExact(env: Env, document: Node, remove: set<string>)
    requires Parse(env, document).Some?
    ensures var edited := RemoveReferences(document, remove);
            var after := if edited.Some? then edited.value else document;
            && Parse(env, after) == Some(Cleared(Parse(env, document).value, remove))
            && (edited.Some? ==> Untouched(document, after, {AUTOSTART, DEFAULT_PRESET}))
            && (Editable(after) <==> Editable(document))
  {
    hide Lookup;
    hide Put;
    hide Unique;
    hide Others;
    hide ParseRouter;
    hide ClearDefault;
    hide ClearAutostart;
    hide Without;
    ParseParts(env, document);
    var router := RouterOf(document);
    var around := if document.Mapping? then Others(document.entries, {ROUTER}) else [];
    ClearDefaultExact(env, around, router, remove);
    var cleared := ClearDefault(router, remove);
    var between := if cleared.Some? then cleared.value else router;
    ClearAutostartExact(env, around, between, remove);
    var last := ClearAutostart(between, remove);
    var done := if last.Some? then last.value else between;
    if document.Mapping? && RouterSection(document.entries, false).Some? {
      ParseEdited(env, document, done);
      LookupPut(document.entries, ROUTER, Mapping(done), ROUTER);
    } else {
      NoReferences(env, document, remove);
    }
  }

  lemma NoReferences(env: Env, document: Node, remove: set<string>)
    requires Parse(env, document).Some?
    requires !(document.Mapping? && RouterSection(document.entries, false).Some?)
    ensures Cleared(Parse(env, document).value, remove) == Parse(env, document).value
  {
    hide Unique;
    ParseParts(env, document);
    NoEntries(AUTOSTART);
    NoEntries(DEFAULT_PRESET);
    assert RouterOf(document) == [];
  }

  // ---------- the file ----------

  datatype Error = Malformed | Unwritten

  datatype Op = SetPreset(name: string, enabled: bool, writes: bool) | RemovePresets(remove: set<string>, writes: bool)

  function Edit(document: Node, op: Op): Option<Node> {
    match op
    case SetPreset(name, enabled, _) => SetAutostart(document, name, enabled)
    case RemovePresets(remove, _) => RemoveReferences(document, remove)
  }

  /** `mutateDocument`: an edit is written only when the edited document is valid and the write succeeds. */
  function Mutate(env: Env, document: Node, op: Op): (Result<bool, Error>, Node) {
    var edited := Edit(document, op);
    if Parse(env, document).None? then (Err(Malformed), document)
    else if edited.None? then (Ok(false), document)
    else if Parse(env, edited.value).None? then (Err(Malformed), document)
    else if !op.writes then (Err(Unwritten), document)
    else (Ok(true), edited.value)
  }

  /** What an operation does to the two settings, with the cap on autostart presets. */
  function Apply(c: Config, editable: bool, op: Op): Config {
    if !op.writes then c
    else match op
      case SetPreset(name, true, _) =>
        if editable && |AppendIfAbsent(c.autostart, name)| <= c.modelsMax then c.(autostart := AppendIfAbsent(c.autostart, name)) else c
      case SetPreset(name, false, _) => c.(autostart := Without(c.autostart, {name}))
      case RemovePresets(remove, _) => Cleared(c, remove)
  }

  function Run(env: Env, document: Node, ops: seq<Op>): Node
    decreases |ops|
  {
    if ops == [] then document else Run(env, Mutate(env, document, ops[0]).1, ops[1..])
  }

  function ApplyAll(c: Config, editable: bool, ops: seq<Op>): Config
    decreases |ops|
  {
    if ops == [] then c else ApplyAll(Apply(c, editable, ops[0]), editable, ops[1..])
  }

  /** A valid file stays valid, and only enabling at the cap can be refused as malformed. */
  lemma StepRefines(env: Env, document: Node, op: Op)
    requires Parse(env, document).Some?
    ensures var c := Parse(env, document).value;
            var (result, after) := Mutate(env, document, op);
            && Parse(env, after) == Some(Apply(c, Editable(document), op))
            && (Editable(after) <==> Editable(document))
            && (result == Err(Malformed) <==> op.SetPreset? && op.enabled && Editable(document) && op.name !in c.autostart && |c.autostart| >= c.modelsMax)
  {
    hide SetAutostart;
    hide RemoveReferences;
    hide ParseRouter;
    hide Editable;
    hide Untouched;
    hide Without;
    var c := Parse(env, document).value;
    assert |c.autostart| <= c.modelsMax by { AtMostMax(env, document); }
    match op {
      case SetPreset(name, enabled, _) =>
        if enabled {
          EnableExact(env, document, name);
        } else {
          DisableExact(env, document, name);
          if name !in c.autostart { WithoutNone(c.autostart, {name}); }
        }
      case RemovePresets(remove, _) => RemoveExact(env, document, remove);
    }
  }

  lemma AtMostMax(env: Env, document: Node)
    requires Parse(env, document).Some?
    ensures |Parse(env, document).value.autostart| <= Parse(env, document).value.modelsMax
  {}

  /** Over every run of edits the file means what the list operations say, and keeps within the cap. */
  lemma {:induction false} RunRefines(env: Env, document: Node, ops: seq<Op>)
    requires Parse(env, document).Some?
    ensures var after := Parse(env, Run(env, document, ops));
            && after == Some(ApplyAll(Parse(env, document).value, Editable(document), ops))
            && |after.value.autostart| <= after.value.modelsMax == Parse(env, document).value.modelsMax
    decreases |ops|
  {
    hide Parse;
    hide Mutate;
    hide Editable;
    AtMostMax(env, document);
    if ops != [] {
      StepRefines(env, document, ops[0]);
      RunRefines(env, Mutate(env, document, ops[0]).1, ops[1..]);
    }
  }

  /** `setAutostartPreset`, node by node. */
  method EditAutostart(document: Node, name: string, enabled: bool) returns (edited: Option<Node>)
    ensures edited == SetAutostart(document, name, enabled)
  {
    hide KeepItems;
    hide Lookup;
    hide Put;
    hide Text;
    if !document.Mapping? {
      return None;
    }
    var section := MappingValue(document.entries, ROUTER);
    if section.None? && !enabled {
      return None;
    }
    if section.Some? && !section.value.Mapping? {
      return None;
    }
    var router := if section.Some? then section.value.entries else [];
    var names := MappingValue(router, AUTOSTART);
    var items: seq<Node> := [];
    if names.Some? {
      if !names.value.Sequence? {
        return None;
      }
      items := names.value.items;
    } else if !enabled {
      return None;
    }
    var changed;
    if enabled {
      assert [] + [Scalar(name)] == [Scalar(name)];
      items, changed := AppendNameIfAbsent(items, name);
      assert names.None? ==> items == [Scalar(name)];
    } else {
      TextsHave(items, {name});
      items, changed := RemoveSeqItems(items, {name});
    }
    return if changed then Some(WithRouter(document.entries, Put(router, AUTOSTART, Sequence(items)))) else None;
  }

  method EditDefault(router: seq<Entry>, remove: set<string>) returns (edited: Option<seq<Entry>>)
    ensures edited == ClearDefault(router, remove)
  {
    hide Lookup;
    hide Put;
    var node := MappingValue(router, DEFAULT_PRESET);
    if node.None? || Text(node.value) !in remove {
      return None;
    }
    return Some(Put(router, DEFAULT_PRESET, Emptied(node.value)));
  }

  method EditNames(router: seq<Entry>, remove: set<string>) returns (edited: Option<seq<Entry>>)
    ensures edited == ClearAutostart(router, remove)
  {
    hide Lookup;
    hide Put;
    hide Text;
    hide KeepItems;
    var node := MappingValue(router, AUTOSTART);
    if node.None? || !node.value.Sequence? {
      return None;
    }
    TextsHave(node.value.items, remove);
    var items, changed := RemoveSeqItems(node.value.items, remove);
    return if changed then Some(Put(router, AUTOSTART, Sequence(items))) else None;
  }

  /** `removePresetReferenceNodes`, node by node. */
  method EditReferences(document: Node, remove: set<string>) returns (edited: Option<Node>)
    ensures edited == RemoveReferences(document, remove)
  {
    hide ClearDefault;
    hide ClearAutostart;
    hide Lookup;
    hide WithRouter;
    if !document.Mapping? {
      return None;
    }
    var section := MappingValue(document.entries, ROUTER);
    if section.None? || !section.value.Mapping? {
      return None;
    }
    var router := section.value.entries;
    var changed := false;
    var cleared := EditDefault(router, remove);
    if cleared.Some? {
      router, changed := cleared.value, true;
    }
    var filtered := EditNames(router, remove);
    if filtered.Some? {
      router, changed := filtered.value, true;
    }
    return if changed then Some(WithRouter(document.entries, router)) else None;
  }

  class FileStore {
    var document: Node

    method SetRouterAutostartPreset(env: Env, name: string, enabled: bool, writes: bool) returns (r: Result<bool, Error>)
      modifies this
      ensures (r, document) == Mutate(env, old(document), SetPreset(name, enabled, writes))
    {
      hide Parse;
      hide SetAutostart;
      if Parse(env, document).None? {
        return Err(Malformed);
      }
      var edited := EditAutostart(document, name, enabled);
      r := Replace(env, edited, writes);
    }

    method RemoveRouterPresetReferences(env: Env, remove: set<string>, writes: bool) returns (r: Result<bool, Error>)
      modifies this
      ensures (r, document) == Mutate(env, old(document), RemovePresets(remove, writes))
    {
      hide Parse;
      hide RemoveReferences;
      if Parse(env, document).None? {
        return Err(Malformed);
      }
      var edited := EditReferences(document, remove);
      r := Replace(env, edited, writes);
    }

    /** The end of `mutateDocument`: nothing is written without a change, or when the result is not valid. */
    method Replace(env: Env, edited: Option<Node>, writes: bool) returns (r: Result<bool, Error>)
      modifies this
      ensures r == if edited.None? then Ok(false)
                   else if Parse(env, edited.value).None? then Err(Malformed)
                   else if writes then Ok(true)
                   else Err(Unwritten)
      ensures document == if r == Ok(true) then edited.value else old(document)
    {
      hide Parse;
      if edited.None? {
        return Ok(false);
      }
      if Parse(env, edited.value).None? {
        return Err(Malformed);
      }
      if !writes {
        return Err(Unwritten);
      }
      document := edited.value;
      return Ok(true);
    }
  }

  lemma TextsHave(items: seq<Node>, names: set<string>)
    ensures (exists t :: t in Texts(items) && t in names) <==> exists item :: item in items && Text(item) in names
  {
    var texts := Texts(items);
    if t :| t in texts && t in names {
      var i :| 0 <= i < |texts| && texts[i] == t;
      assert items[i] in items;
    }
    if item :| item in items && Text(item) in names {
      var i :| 0 <= i < |items| && items[i] == item;
      assert texts[i] in texts;
    }
  }

  // ---------- documents that enabling does not change ----------

  /** Everything but the router section is acceptable, and numbers are of no matter. */
  const LENIENT := Env(text => Some(1), (top, router) => true)

  const NULL_ROUTER := Mapping([Entry(ROUTER, Null(""))])
  const NULL_AUTOSTART := Mapping([Entry(ROUTER, Mapping([Entry(AUTOSTART, Null(""))]))])

  lemma FirstEntry(key: string, value: Node)
    ensures Lookup([Entry(key, value)], key) == Some(value)
    ensures forall other :: other != key ==> Lookup([Entry(key, value)], other) == None
    ensures Unique([Entry(key, value)])
  {
    assert [Entry(key, value)][1..] == [];
    forall other | other != key ensures IndexOf([Entry(key, value)], other) == 1 {
      assert IndexOf([Entry(key, value)][1..], other) == 0;
    }
  }

  /** A valid file whose `router`, or whose `autostart_presets`, is null: enabling reports success and changes nothing. */
  lemma NullSectionIgnoresEnable(document: Node, name: string)
    requires document == NULL_ROUTER || document == NULL_AUTOSTART
    ensures Parse(LENIENT, document) == Some(Config(1, "", []))
    ensures Mutate(LENIENT, document, SetPreset(name, true, true)) == (Ok(false), document)
  {
    hide Lookup;
    hide Unique;
    FirstEntry(ROUTER, Null(""));
    FirstEntry(AUTOSTART, Null(""));
    FirstEntry(ROUTER, Mapping([Entry(AUTOSTART, Null(""))]));
    NoEntries(MODELS_MAX);
    NoEntries(DEFAULT_PRESET);
    NoEntries(AUTOSTART);
    assert Unique([]) by { NoneUnique(); }
  }

  lemma NoneUnique()
    ensures Unique([])
  {}

  // ---------- what a file with all three fields says ----------

  lemma {:induction false} LookupAt(entries: seq<Entry>, i: nat)
    requires i < |entries| && forall j :: 0 <= j < i ==> entries[j].key != entries[i].key
    ensures Lookup(entries, entries[i].key) == Some(entries[i].value) && IndexOf(entries, entries[i].key) == i
  {
    if i > 0 {
      LookupAt(entries[1..], i - 1);
      assert entries[1..][i - 1] == entries[i];
    }
  }

  function FullRouter(maxText: string, defaultText: string, items: seq<Node>): seq<Entry> {
    [Entry(MODELS_MAX, Scalar(maxText)), Entry(DEFAULT_PRESET, Scalar(defaultText)), Entry(AUTOSTART, Sequence(items))]
  }

  lemma FieldNames()
    ensures ROUTER == "router" && MODELS_MAX == "models_max" && DEFAULT_PRESET == "default_preset" && AUTOSTART == "autostart_presets"
    ensures MODELS_MAX != DEFAULT_PRESET && MODELS_MAX != AUTOSTART && DEFAULT_PRESET != AUTOSTART
  {}

  lemma FullFields(maxText: string, defaultText: string, items: seq<Node>)
    ensures var fields := FullRouter(maxText, defaultText, items);
            && Lookup(fields, MODELS_MAX) == Some(Scalar(maxText)) && Lookup(fields, DEFAULT_PRESET) == Some(Scalar(defaultText))
            && Lookup(fields, AUTOSTART) == Some(Sequence(items))
            && Unique(fields) && Others(fields, ROUTER_FIELDS) == []
  {
    var fields := FullRouter(maxText, defaultText, items);
    FieldNames();
    LookupAt(fields, 0);
    LookupAt(fields, 1);
    LookupAt(fields, 2);
    hide Lookup;
    hide IndexOf;
    OthersNone(fields);
  }

  lemma {:induction false} OthersNone(entries: seq<Entry>)
    requires forall i :: 0 <= i < |entries| ==> entries[i].key in ROUTER_FIELDS
    ensures Others(entries, ROUTER_FIELDS) == []
  {
    if entries != [] { OthersNone(entries[1..]); }
  }

  lemma OneSection(env: Env, router: seq<Entry>)
    ensures Parse(env, Mapping([Entry(ROUTER, Mapping(router))])) == ParseRouter(env, [], router)
  {
    hide ParseRouter;
    var top := [Entry(ROUTER, Mapping(router))];
    LookupAt(top, 0);
    hide Lookup;
    hide IndexOf;
    assert top[1..] == [];
    assert Others(top, {ROUTER}) == [];
  }

  lemma FullParses(env: Env, maxText: string, defaultText: string, items: seq<Node>)
    requires AllScalar(items) && env.others([], [])
    ensures ParseRouter(env, [], FullRouter(maxText, defaultText, items))
         == (if Most(env, maxText) >= 1 && |items| <= Most(env, maxText)
             then Some(Config(Most(env, maxText), defaultText, Texts(items))) else None)
  {
    FullFields(maxText, defaultText, items);
    FullDecodes(env, maxText, defaultText, items);
    hide Lookup;
    hide Unique;
    hide Others;
    hide FullRouter;
    hide AllScalar;
    hide DecodeMax;
    hide DecodeDefault;
    hide DecodeAutostart;
    hide Texts;
  }

  lemma FullDecodes(env: Env, maxText: string, defaultText: string, items: seq<Node>)
    requires AllScalar(items)
    ensures DecodeMax(env, Some(Scalar(maxText))) == (if env.number(maxText) == Some(0) then Some(1) else env.number(maxText))
    ensures DecodeDefault(Some(Scalar(defaultText))) == Some(defaultText) && DecodeAutostart(Some(Sequence(items))) == Some(Texts(items))
    ensures |Texts(items)| == |items|
  {
    hide Texts;
  }

  /** How many models a text allows: none counts as one. */
  function Most(env: Env, text: string): int {
    if env.number(text) == Some(0) then 1 else if env.number(text).Some? then env.number(text).value else 0
  }

  function FullConfig(maxText: string, defaultText: string, items: seq<Node>): Node {
    Mapping([Entry("router", Mapping([Entry("models_max", Scalar(maxText)), Entry("default_preset", Scalar(defaultText)),
                                      Entry("autostart_presets", Sequence(items))]))])
  }

  /** The three fields by their names: at least one model, and no more presets than models. */
  lemma ConfigReads(env: Env, maxText: string, defaultText: string, items: seq<Node>)
    requires AllScalar(items) && env.others([], [])
    ensures Parse(env, FullConfig(maxText, defaultText, items))
         == (if Most(env, maxText) >= 1 && |items| <= Most(env, maxText)
             then Some(Config(Most(env, maxText), defaultText, Texts(items))) else None)
  {
    OneSection(env, FullRouter(maxText, defaultText, items));
    FullParses(env, maxText, defaultText, items);
    FieldNames();
    hide Parse;
    hide ParseRouter;
    hide AllScalar;
    hide Most;
    hide Texts;
  }

  /** A default is emptied exactly when its text is to be removed, also one whose text is a form of null. */
  lemma DefaultCleared(node: Node, remove: set<string>)
    requires node.Scalar? || node.Null?
    ensures ClearDefault([Entry("default_preset", node)], remove)
         == (if node.text in remove then Some([Entry("default_preset", if node.Scalar? then Scalar("") else Null(""))]) else None)
  {
    FieldNames();
    var router := [Entry(DEFAULT_PRESET, node)];
    LookupAt(router, 0);
    hide Lookup;
    hide IndexOf;
    assert Put(router, DEFAULT_PRESET, Emptied(node)) == [Entry(DEFAULT_PRESET, Emptied(node))];
  }
}
