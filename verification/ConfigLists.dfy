/** The list operations that the edits of `config.yaml` stand for. */
module ConfigLists {

  function AppendIfAbsent(names: seq<string>, name: string): (r: seq<string>)
    ensures names <= r
    ensures forall n :: n in r <==> n in names || n == name
  {
    if name in names then names else names + [name]
  }

  function Without(names: seq<string>, remove: set<string>): (r: seq<string>)
    ensures |r| <= |names|
    ensures forall n :: n in r <==> n in names && n !in remove
  {
    if names == [] then []
    else if names[0] in remove then Without(names[1..], remove)
    else [names[0]] + Without(names[1..], remove)
  }

  lemma {:induction false} WithoutAppend(a: seq<string>, b: seq<string>, remove: set<string>)
    ensures Without(a + b, remove) == Without(a, remove) + Without(b, remove)
  {
    if a == [] {
      assert a + b == b;
    } else {
      assert (a + b)[1..] == a[1..] + b;
      WithoutAppend(a[1..], b, remove);
    }
  }

  /** Each place of the list is kept or taken out by itself. */
  lemma WithoutAt(names: seq<string>, remove: set<string>, i: nat)
    requires i < |names|
    ensures Without(names, remove)
         == Without(names[..i], remove) + ((if names[i] in remove then [] else [names[i]]) + Without(names[i + 1..], remove))
  {
    assert names == names[..i] + names[i..];
    WithoutFrom(names, remove, i);
    hide Without;
    WithoutAppend(names[..i], names[i..], remove);
  }

  lemma WithoutFrom(names: seq<string>, remove: set<string>, i: nat)
    requires i < |names|
    ensures Without(names[i..], remove) == (if names[i] in remove then [] else [names[i]]) + Without(names[i + 1..], remove)
  {
    assert names[i..][1..] == names[i + 1..];
  }

  /** Disabling undoes enabling, and changes nothing else. */
  lemma DisableUndoesEnable(names: seq<string>, name: string)
    ensures Without(AppendIfAbsent(names, name), {name}) == Without(names, {name})
    ensures name !in names ==> Without(AppendIfAbsent(names, name), {name}) == names
  {
    WithoutAppend(names, [name], {name});
    assert [name][1..] == [];
    if name !in names { WithoutNone(names, {name}); }
  }

  lemma {:induction false} WithoutNone(names: seq<string>, remove: set<string>)
    requires forall n :: n in names ==> n !in remove
    ensures Without(names, remove) == names
  {
    if names != [] { WithoutNone(names[1..], remove); }
  }
}
