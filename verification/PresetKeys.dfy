/** Canonical spelling of the keys of `models.ini`. */
module PresetKeys {
  import opened Wrappers
  import opened Text

  const ENV_PREFIX := "LLAMA_ARG_"

  /** The aliases and what replaces them. */
  const KEY_ALIASES: seq<(string, string)> := [
    ("batch", "batch-size"),
    ("ubatch", "ubatch-size"),
    ("n-parallel", "parallel"),
    ("endpoint-metrics", "metrics"),
    ("endpoint-props", "props"),
    ("endpoint-slots", "slots"),
    ("think", "reasoning-format"),
    ("think-budget", "reasoning-budget"),
    ("models_dir", "models-dir"),
    ("models_preset", "models-preset"),
    ("models_max", "models-max")
  ]

  /** The spelling that replaces `key` from row i of the alias table on; a key outside it stands for itself. */
  function AliasFrom(key: string, i: nat): string
    requires i <= |KEY_ALIASES|
    decreases |KEY_ALIASES| - i
  {
    if i == |KEY_ALIASES| then key
    else if KEY_ALIASES[i].0 == key then KEY_ALIASES[i].1
    else AliasFrom(key, i + 1)
  }

  function AliasOf(key: string): string {
    AliasFrom(key, 0)
  }

  /** Case mapping. Outside ASCII only the two characters that lower to an ASCII letter matter:
      any other one fails the key pattern whatever its case. */
  function LowerChar(c: char): char {
    if 'A' <= c <= 'Z' then (c as int + 32) as char
    else if c == '\U{0130}' then 'i'
    else if c == '\U{212A}' then 'k'
    else c
  }

  function UpperChar(c: char): char {
    if 'a' <= c <= 'z' then (c as int - 32) as char else c
  }

  function DashChar(c: char): char {
    if c == '_' then '-' else c
  }

  function MapChars(s: string, f: char -> char): (t: string)
    ensures |t| == |s| && forall i :: 0 <= i < |s| ==> t[i] == f(s[i])
  {
    seq(|s|, i requires 0 <= i < |s| => f(s[i]))
  }

  predicate KeyHead(c: char) { 'a' <= c <= 'z' || c == '_' }
  predicate KeyTail(c: char) { KeyHead(c) || '0' <= c <= '9' || c == '.' || c == '-' }

  /** The pattern `^[a-z_][a-z0-9_.-]*$`. */
  predicate IsKey(s: string) {
    s != "" && KeyHead(s[0]) && forall i :: 0 <= i < |s| ==> KeyTail(s[i])
  }

  /** The key in lower case, or None where its case or its characters are refused. */
  function Spelling(key: string): Option<string> {
    var trimmed := Trim(key);
    if trimmed == "" then None
    else if ENV_PREFIX <= trimmed then
      if trimmed != MapChars(trimmed, UpperChar) then None
      else Checked(MapChars(MapChars(trimmed[|ENV_PREFIX|..], DashChar), LowerChar))
    else if trimmed != MapChars(trimmed, LowerChar) then None
    else Checked(trimmed)
  }

  function Checked(spelled: string): Option<string> {
    if IsKey(spelled) then Some(spelled) else None
  }

  /** The canonical form of a key, or None where the source reports an invalid preset. */
  function CanonicalKey(key: string): Option<string> {
    match Spelling(key)
    case None => None
    case Some(spelled) => Some(AliasOf(spelled))
  }

  /** Every string that matches the pattern is its own spelling, and nothing else comes out. */
  lemma SpellingOfKey(key: string)
    ensures IsKey(key) ==> Spelling(key) == Some(key)
    ensures Spelling(key).Some? ==> IsKey(Spelling(key).value)
  {
    if IsKey(key) {
      TrimTight(key);
      assert key[0] != ENV_PREFIX[0];
      assert MapChars(key, LowerChar) == key;
    }
  }

  lemma RowsAreKeys(i: nat)
    requires i < |KEY_ALIASES|
    ensures IsKey(KEY_ALIASES[i].1)
  {}

  lemma RowsSettle(i: nat, j: nat)
    requires i < |KEY_ALIASES| && j < |KEY_ALIASES|
    ensures KEY_ALIASES[i].0 != KEY_ALIASES[j].1
  {}

  lemma {:induction false} AliasFromRow(key: string, i: nat) returns (row: nat)
    requires i <= |KEY_ALIASES|
    ensures row <= |KEY_ALIASES|
    ensures AliasFrom(key, i) == if row == |KEY_ALIASES| then key else KEY_ALIASES[row].1
    decreases |KEY_ALIASES| - i
  {
    if i == |KEY_ALIASES| || KEY_ALIASES[i].0 == key {
      row := i;
    } else {
      row := AliasFromRow(key, i + 1);
    }
  }

  lemma {:induction false} ReplacementSettles(row: nat, i: nat)
    requires row < |KEY_ALIASES| && i <= |KEY_ALIASES|
    ensures AliasFrom(KEY_ALIASES[row].1, i) == KEY_ALIASES[row].1
    decreases |KEY_ALIASES| - i
  {
    if i < |KEY_ALIASES| {
      RowsSettle(i, row);
      ReplacementSettles(row, i + 1);
    }
  }

  /** The replacement of an alias is a key and no alias itself. */
  lemma AliasSettles(key: string)
    ensures IsKey(key) ==> IsKey(AliasOf(key))
    ensures AliasOf(AliasOf(key)) == AliasOf(key)
  {
    var row := AliasFromRow(key, 0);
    if row < |KEY_ALIASES| {
      RowsAreKeys(row);
      ReplacementSettles(row, 0);
    }
  }

  /** Canonicalisation is idempotent, and its results are keys the parser reads back. */
  lemma CanonicalIdempotent(key: string)
    requires CanonicalKey(key).Some?
    ensures IsKey(CanonicalKey(key).value)
    ensures CanonicalKey(CanonicalKey(key).value) == CanonicalKey(key)
  {
    SpellingOfKey(key);
    var spelled := Spelling(key).value;
    AliasSettles(spelled);
    SpellingOfKey(AliasOf(spelled));
  }

  /** The environment spelling of a key, as llama.cpp writes it. */
  function EnvironmentForm(key: string): string {
    ENV_PREFIX + MapChars(key, EnvironmentChar)
  }

  function EnvironmentChar(c: char): char {
    if c == '-' then '_' else UpperChar(c)
  }

  /** The key with every underscore turned into a dash. */
  function Dashed(key: string): string {
    MapChars(key, DashChar)
  }

  lemma EnvironmentCharInverts(c: char)
    requires KeyTail(c)
    ensures LowerChar(DashChar(EnvironmentChar(c))) == DashChar(c)
    ensures UpperChar(EnvironmentChar(c)) == EnvironmentChar(c) && !IsSpace(EnvironmentChar(c))
  {}

  lemma EnvironmentLowers(key: string)
    requires IsKey(key)
    ensures MapChars(MapChars(MapChars(key, EnvironmentChar), DashChar), LowerChar) == Dashed(key)
  {
    forall i | 0 <= i < |key| ensures LowerChar(DashChar(EnvironmentChar(key[i]))) == DashChar(key[i]) {
      EnvironmentCharInverts(key[i]);
    }
  }

  lemma EnvironmentIsUpper(key: string)
    requires IsKey(key)
    ensures var env := EnvironmentForm(key);
            Trim(env) == env && MapChars(env, UpperChar) == env && env[|ENV_PREFIX|..] == MapChars(key, EnvironmentChar)
  {
    hide IsSpace;
    var body := MapChars(key, EnvironmentChar);
    var env := ENV_PREFIX + body;
    forall i | 0 <= i < |key| ensures UpperChar(body[i]) == body[i] && !IsSpace(body[i]) {
      EnvironmentCharInverts(key[i]);
    }
    assert env[|env| - 1] == body[|body| - 1];
    PrefixIsUpper();
    TrimTight(env);
  }

  lemma PrefixIsUpper()
    ensures !IsSpace(ENV_PREFIX[0]) && forall i :: 0 <= i < |ENV_PREFIX| ==> UpperChar(ENV_PREFIX[i]) == ENV_PREFIX[i]
  {}

  /** The environment form of a key is read as the key with dashes, whatever underscores it had. */
  lemma EnvironmentSpelling(key: string)
    requires IsKey(key)
    ensures Spelling(EnvironmentForm(key)) == Checked(Dashed(key))
  {
    hide Trim;
    hide UpperChar;
    hide LowerChar;
    hide DashChar;
    hide EnvironmentChar;
    EnvironmentLowers(key);
    EnvironmentIsUpper(key);
    assert ENV_PREFIX <= EnvironmentForm(key);
  }

  lemma DashedPlain(key: string)
    ensures '_' !in Dashed(key)
    ensures '_' !in key ==> Dashed(key) == key
  {}

  lemma RowsArePlain(i: nat)
    requires i < |KEY_ALIASES|
    ensures '_' !in KEY_ALIASES[i].1
  {}

  lemma {:induction false} AliasPlain(key: string, i: nat)
    requires i <= |KEY_ALIASES| && '_' !in key
    ensures '_' !in AliasFrom(key, i)
    decreases |KEY_ALIASES| - i
  {
    if i < |KEY_ALIASES| {
      RowsArePlain(i);
      AliasPlain(key, i + 1);
    }
  }

  /** The aliases that are spelled with an underscore. */
  const UNDERSCORE_ALIASES := {"models_dir", "models_preset", "models_max"}

  lemma AliasUnderscore(key: string)
    requires '_' in key
    ensures if key in UNDERSCORE_ALIASES then AliasOf(key) == Dashed(key) && AliasOf(Dashed(key)) == Dashed(key) && IsKey(Dashed(key))
            else AliasOf(key) == key
  {
    hide AliasFrom;
    hide Dashed;
    hide IsKey;
    if key in UNDERSCORE_ALIASES {
      DashedAliases();
      FixedAliases();
    } else {
      NoRow(key, 0);
    }
  }

  lemma DashedAliases()
    ensures Dashed("models_dir") == "models-dir" && Dashed("models_preset") == "models-preset" && Dashed("models_max") == "models-max"
    ensures IsKey("models-dir") && IsKey("models-preset") && IsKey("models-max")
  {}

  lemma FixedAliases()
    ensures AliasOf("models_dir") == "models-dir" && AliasOf("models_preset") == "models-preset" && AliasOf("models_max") == "models-max"
    ensures AliasOf("models-dir") == "models-dir" && AliasOf("models-preset") == "models-preset" && AliasOf("models-max") == "models-max"
  {
    RowIs(8, 0);
    RowIs(9, 0);
    RowIs(10, 0);
    ReplacementSettles(8, 0);
    ReplacementSettles(9, 0);
    ReplacementSettles(10, 0);
  }

  lemma {:induction false} RowIs(row: nat, i: nat)
    requires i <= row < |KEY_ALIASES| && forall j :: i <= j < row ==> KEY_ALIASES[j].0 != KEY_ALIASES[row].0
    ensures AliasFrom(KEY_ALIASES[row].0, i) == KEY_ALIASES[row].1
    decreases row - i
  {
    if i < row { RowIs(row, i + 1); }
  }

  lemma {:induction false} NoRow(key: string, i: nat)
    requires i <= |KEY_ALIASES| && '_' in key && key !in UNDERSCORE_ALIASES
    ensures AliasFrom(key, i) == key
    decreases |KEY_ALIASES| - i
  {
    if i < |KEY_ALIASES| {
      RowUnderscore(i);
      NoRow(key, i + 1);
    }
  }

  lemma RowUnderscore(i: nat)
    requires i < |KEY_ALIASES|
    ensures '_' in KEY_ALIASES[i].0 ==> KEY_ALIASES[i].0 in UNDERSCORE_ALIASES
  {}

  /** Both spellings of a key have the same canonical form exactly when it has no underscore, or is one of the three
      aliases that are spelled with one. */
  lemma EnvironmentFormAgrees(key: string)
    requires IsKey(key)
    ensures CanonicalKey(EnvironmentForm(key)) == CanonicalKey(key) <==> '_' !in key || key in UNDERSCORE_ALIASES
  {
    hide AliasOf;
    hide Trim;
    hide UpperChar;
    hide LowerChar;
    hide DashChar;
    hide EnvironmentChar;
    hide EnvironmentForm;
    EnvironmentSpelling(key);
    SpellingOfKey(key);
    hide Spelling;
    DashedPlain(key);
    hide Dashed;
    if '_' in key {
      AliasUnderscore(key);
      PlainAlias(Dashed(key));
    }
  }

  lemma PlainAlias(key: string)
    requires '_' !in key
    ensures '_' !in AliasOf(key)
  {
    AliasPlain(key, 0);
  }

  // ---------- which spellings are accepted, and what becomes of them ----------

  lemma RowsDiffer(i: nat, j: nat)
    requires i < j < |KEY_ALIASES|
    ensures KEY_ALIASES[i].0 != KEY_ALIASES[j].0
  {}

  lemma RowRead(row: nat)
    requires row < |KEY_ALIASES|
    ensures AliasOf(KEY_ALIASES[row].0) == KEY_ALIASES[row].1
  {
    hide AliasFrom;
    forall j | 0 <= j < row ensures KEY_ALIASES[j].0 != KEY_ALIASES[row].0 { RowsDiffer(j, row); }
    RowIs(row, 0);
  }

  lemma {:induction false} OutsideTable(key: string, i: nat)
    requires i <= |KEY_ALIASES| && forall j :: i <= j < |KEY_ALIASES| ==> KEY_ALIASES[j].0 != key
    ensures AliasFrom(key, i) == key
    decreases |KEY_ALIASES| - i
  {
    if i < |KEY_ALIASES| { OutsideTable(key, i + 1); }
  }

  const ALIASES: set<string> := {
    "batch", "ubatch", "n-parallel", "endpoint-metrics", "endpoint-props", "endpoint-slots", "think", "think-budget",
    "models_dir", "models_preset", "models_max"}

  /** The eleven aliases; every other key stands for itself. */
  lemma AliasesExact(key: string)
    ensures AliasOf("batch") == "batch-size" && AliasOf("ubatch") == "ubatch-size" && AliasOf("n-parallel") == "parallel"
    ensures AliasOf("endpoint-metrics") == "metrics" && AliasOf("endpoint-props") == "props" && AliasOf("endpoint-slots") == "slots"
    ensures AliasOf("think") == "reasoning-format" && AliasOf("think-budget") == "reasoning-budget"
    ensures AliasOf("models_dir") == "models-dir" && AliasOf("models_preset") == "models-preset" && AliasOf("models_max") == "models-max"
    ensures key !in ALIASES ==> AliasOf(key) == key
  {
    hide AliasFrom;
    hide AliasOf;
    RowRead(0);
    RowRead(1);
    RowRead(2);
    RowRead(3);
    RowRead(4);
    RowRead(5);
    RowRead(6);
    RowRead(7);
    FixedAliases();
    if key !in ALIASES { PlainKeys(key); }
  }

  lemma PlainKeys(key: string)
    requires key !in ALIASES
    ensures AliasOf(key) == key
  {
    hide AliasFrom;
    OutsideTable(key, 0);
  }

  /** The command-line form: lower case letters or an underscore first, then also digits, dots and hyphens. */
  predicate PlainForm(s: string) {
    && s != "" && ('a' <= s[0] <= 'z' || s[0] == '_')
    && forall i :: 0 <= i < |s| ==> 'a' <= s[i] <= 'z' || s[i] == '_' || '0' <= s[i] <= '9' || s[i] == '.' || s[i] == '-'
  }

  /** A letter of the environment form. The last two are no ASCII letters but are `i` and `k` in lower case. */
  predicate UpperLetter(c: char) { 'A' <= c <= 'Z' || c == '\U{0130}' || c == '\U{212A}' }

  /** What follows the prefix of an environment form. */
  predicate UpperForm(s: string) {
    && s != "" && UpperLetter(s[0])
    && forall i :: 0 <= i < |s| ==> UpperLetter(s[i]) || s[i] == '_' || '0' <= s[i] <= '9' || s[i] == '.' || s[i] == '-'
  }

  /** A key is accepted, with any space around it, exactly in one of its two forms; the environment form stands for
      the key in lower case with hyphens. */
  lemma SpellingsExact(key: string)
    ensures var s := Trim(key);
            var env := "LLAMA_ARG_" <= s;
            && (CanonicalKey(key).Some? <==> if env then UpperForm(s[10..]) else PlainForm(s))
            && (!env && PlainForm(s) ==> CanonicalKey(key) == Some(AliasOf(s)))
            && (env && UpperForm(s[10..]) ==>
                  exists t :: CanonicalKey(key) == Some(AliasOf(t)) && |t| == |s| - 10 && forall i :: 0 <= i < |t| ==> LowerOf(s[10 + i], t[i]))
  {
    hide AliasOf;
    hide Trim;
    var s := Trim(key);
    if ENV_PREFIX <= s {
      EnvironmentAccepted(s);
      if UpperForm(s[10..]) { EnvironmentLowered(s); }
    } else if s != "" {
      PlainAccepted(s);
    }
  }

  /** What a character of the environment form becomes. */
  predicate LowerOf(c: char, d: char) {
    if 'A' <= c <= 'Z' then d as int == c as int + 32
    else if c == '_' then d == '-'
    else if c == '\U{0130}' then d == 'i'
    else if c == '\U{212A}' then d == 'k'
    else d == c
  }

  lemma LoweredChar(c: char)
    ensures LowerOf(c, LowerChar(DashChar(c)))
  {}

  lemma EnvironmentLowered(s: string)
    requires |s| >= 10
    ensures var t := MapChars(MapChars(s[10..], DashChar), LowerChar);
            |t| == |s| - 10 && forall i :: 0 <= i < |t| ==> LowerOf(s[10 + i], t[i])
  {
    hide LowerOf;
    hide LowerChar;
    hide DashChar;
    forall i | 0 <= i < |s| - 10 ensures LowerOf(s[10 + i], LowerChar(DashChar(s[10..][i]))) { LoweredChar(s[10 + i]); }
  }

  lemma PlainAccepted(s: string)
    ensures PlainForm(s) <==> s == MapChars(s, LowerChar) && IsKey(s)
  {
    if PlainForm(s) { assert MapChars(s, LowerChar) == s; }
  }

  lemma UpperCharAccepted(c: char)
    ensures (UpperLetter(c) || c == '_' || '0' <= c <= '9' || c == '.' || c == '-') <==> (UpperChar(c) == c && KeyTail(LowerChar(DashChar(c))))
    ensures UpperLetter(c) <==> UpperChar(c) == c && KeyHead(LowerChar(DashChar(c)))
  {}

  lemma EnvironmentAccepted(s: string)
    requires ENV_PREFIX <= s
    ensures var rest := s[|ENV_PREFIX|..];
            UpperForm(rest) <==> s == MapChars(s, UpperChar) && IsKey(MapChars(MapChars(rest, DashChar), LowerChar))
  {
    var rest := s[|ENV_PREFIX|..];
    var spelled := MapChars(MapChars(rest, DashChar), LowerChar);
    forall i | 0 <= i < |rest|
      ensures UpperForm(rest) ==> UpperChar(rest[i]) == rest[i] && KeyTail(spelled[i])
      ensures s == MapChars(s, UpperChar) ==> UpperChar(rest[i]) == rest[i]
    {
      UpperCharAccepted(rest[i]);
      assert s[|ENV_PREFIX| + i] == rest[i];
    }
    forall c: char
      ensures (UpperLetter(c) || c == '_' || '0' <= c <= '9' || c == '.' || c == '-') <==> (UpperChar(c) == c && KeyTail(LowerChar(DashChar(c))))
      ensures UpperLetter(c) <==> UpperChar(c) == c && KeyHead(LowerChar(DashChar(c)))
    {
      UpperCharAccepted(c);
    }
    hide UpperChar;
    hide LowerChar;
    hide DashChar;
    hide UpperLetter;
    hide KeyTail;
    hide KeyHead;
    if UpperForm(rest) {
      UpperWhole(s);
    }
  }

  lemma UpperWhole(s: string)
    requires ENV_PREFIX <= s && UpperForm(s[|ENV_PREFIX|..])
    ensures s == MapChars(s, UpperChar)
  {
    PrefixIsUpper();
    forall i | 0 <= i < |s| ensures UpperChar(s[i]) == s[i] {
      if i < |ENV_PREFIX| {
        assert s[i] == ENV_PREFIX[i];
      } else {
        assert s[i] == s[|ENV_PREFIX|..][i - |ENV_PREFIX|];
        UpperCharAccepted(s[i]);
      }
    }
    hide UpperChar;
  }
}
