/** The order Go gives to strings, and the sorted listing of a set of them. */
module Sorting {

  predicate LexLeq(a: string, b: string) {
    a == "" || (b != "" && (a[0] < b[0] || (a[0] == b[0] && LexLeq(a[1..], b[1..]))))
  }

  lemma {:induction false} LexPrefix(a: string, b: string)
    requires a <= b
    ensures LexLeq(a, b)
  {
    if a != "" { LexPrefix(a[1..], b[1..]); }
  }

  lemma {:induction false} LexDiffer(a: string, b: string, i: nat)
    requires i < |a| && i < |b| && a[..i] == b[..i] && a[i] != b[i]
    ensures LexLeq(a, b) <==> a[i] < b[i]
  {
    if i > 0 {
      assert a[0] == a[..i][0] && b[0] == b[..i][0];
      assert a[1..][..i - 1] == a[..i][1..] && b[1..][..i - 1] == b[..i][1..];
      LexDiffer(a[1..], b[1..], i - 1);
    }
  }

  /** The first place where two strings differ, or the end of the shorter one. */
  lemma {:induction false} FirstDifference(a: string, b: string) returns (i: nat)
    ensures i <= |a| && i <= |b| && a[..i] == b[..i]
    ensures i < |a| && i < |b| ==> a[i] != b[i]
  {
    i := 0;
    if a != "" && b != "" && a[0] == b[0] {
      var j := FirstDifference(a[1..], b[1..]);
      i := j + 1;
      assert a[..i] == [a[0]] + a[1..][..j] && b[..i] == [b[0]] + b[1..][..j];
    }
  }

  /** One string comes before another exactly when it begins the other, or has the smaller character at the first
      place where they differ. */
  lemma LexExact(a: string, b: string)
    ensures LexLeq(a, b) <==> a <= b || exists i :: 0 <= i < |a| && i < |b| && a[..i] == b[..i] && a[i] < b[i]
  {
    if a <= b { LexPrefix(a, b); }
    forall i | 0 <= i < |a| && i < |b| && a[..i] == b[..i] && a[i] != b[i] ensures LexLeq(a, b) <==> a[i] < b[i] {
      LexDiffer(a, b, i);
    }
    var i := FirstDifference(a, b);
    hide LexLeq;
    if i == |b| && i < |a| {
      Longer(a, b);
    } else if i == |a| {
      assert a[..i] == a && b[..i] <= b;
    }
  }

  lemma Longer(a: string, b: string)
    requires |b| < |a| && a[..|b|] == b
    ensures !LexLeq(a, b)
  {
    LexPrefix(b, a);
    if LexLeq(a, b) { LexAntisymmetric(a, b); }
  }

  lemma {:induction false} LexTotal(a: string, b: string)
    ensures LexLeq(a, b) || LexLeq(b, a)
  {
    if a != "" && b != "" { LexTotal(a[1..], b[1..]); }
  }

  lemma {:induction false} LexAntisymmetric(a: string, b: string)
    requires LexLeq(a, b) && LexLeq(b, a)
    ensures a == b
  {
    if a != "" {
      LexAntisymmetric(a[1..], b[1..]);
      assert a == [a[0]] + a[1..] && b == [b[0]] + b[1..];
    }
  }

  lemma {:induction false} LexTransitive(a: string, b: string, c: string)
    requires LexLeq(a, b) && LexLeq(b, c)
    ensures LexLeq(a, c)
  {
    if a != "" && a[0] == b[0] == c[0] { LexTransitive(a[1..], b[1..], c[1..]); }
  }

  ghost predicate IsLeast(x: string, s: set<string>) {
    x in s && forall y :: y in s ==> LexLeq(x, y)
  }

  lemma {:induction false} LeastExists(s: set<string>) returns (x: string)
    requires s != {}
    ensures IsLeast(x, s)
  {
    var y :| y in s;
    var rest := s - {y};
    if rest == {} {
      LexTotal(y, y);
      x := y;
      assert s == {y};
    } else {
      var z := LeastExists(rest);
      LexTotal(y, z);
      LexTotal(y, y);
      x := if LexLeq(y, z) then y else z;
      forall w | w in s ensures LexLeq(x, w) {
        if w != y && x == y { LexTransitive(y, z, w); }
      }
    }
  }

  ghost predicate Sorted(keys: seq<string>) {
    forall i, j :: 0 <= i < j < |keys| ==> LexLeq(keys[i], keys[j]) && keys[i] != keys[j]
  }

  /** Each element of the set, once, in order: `sort.Strings` over a map's keys. */
  ghost predicate IsListing(keys: seq<string>, s: set<string>) {
    Sorted(keys) && (forall k :: k in keys <==> k in s)
  }

  /** A set has one sorted listing only. */
  lemma {:induction false} ListingUnique(a: seq<string>, b: seq<string>, s: set<string>)
    requires IsListing(a, s) && IsListing(b, s)
    ensures a == b
  {
    assert a != [] ==> a[0] in s;
    assert b != [] ==> b[0] in s;
    if a != [] {
      assert a[0] in b && b[0] in a;
      if a[0] != b[0] { LexAntisymmetric(a[0], b[0]); }
      ListingTail(a, s);
      ListingTail(b, s);
      ListingUnique(a[1..], b[1..], s - {a[0]});
      assert a == [a[0]] + a[1..] && b == [b[0]] + b[1..];
    }
  }

  lemma ListingTail(a: seq<string>, s: set<string>)
    requires IsListing(a, s) && a != []
    ensures IsListing(a[1..], s - {a[0]})
  {
    forall k ensures k in a[1..] <==> k in s - {a[0]} {
      assert k in a[1..] ==> exists i :: 0 < i < |a| && a[i] == k;
      if k in s - {a[0]} {
        var i :| 0 <= i < |a| && a[i] == k;
        assert a[1..][i - 1] == k;
      }
    }
  }

  // ---------- sorting a sequence that may repeat names ----------

  function Insert(name: string, names: seq<string>): seq<string> {
    if names == [] || LexLeq(name, names[0]) then [name] + names else [names[0]] + Insert(name, names[1..])
  }

  /** `sort.Strings` */
  function SortNames(names: seq<string>): seq<string> {
    if names == [] then [] else Insert(names[0], SortNames(names[1..]))
  }

  ghost predicate Ascending(names: seq<string>) {
    forall i, j :: 0 <= i < j < |names| ==> LexLeq(names[i], names[j])
  }

  lemma {:induction false} InsertSorts(name: string, names: seq<string>)
    requires Ascending(names)
    ensures Ascending(Insert(name, names)) && multiset(Insert(name, names)) == multiset{name} + multiset(names)
  {
    if names == [] {
    } else if LexLeq(name, names[0]) {
      forall j | 0 < j < |names| ensures LexLeq(name, names[j]) { LexTransitive(name, names[0], names[j]); }
    } else {
      LexTotal(name, names[0]);
      InsertSorts(name, names[1..]);
      var rest := Insert(name, names[1..]);
      assert names == [names[0]] + names[1..];
      forall j | 0 <= j < |rest| ensures LexLeq(names[0], rest[j]) {
        assert rest[j] in multiset(rest);
        assert rest[j] == name || rest[j] in names[1..];
      }
    }
  }

  /** The result is in order and holds the same names as often. */
  lemma {:induction false} SortNamesSorts(names: seq<string>)
    ensures Ascending(SortNames(names)) && multiset(SortNames(names)) == multiset(names)
  {
    if names != [] {
      SortNamesSorts(names[1..]);
      InsertSorts(names[0], SortNames(names[1..]));
      assert names == [names[0]] + names[1..];
    }
  }

  lemma SortNamesKeeps(names: seq<string>, name: string)
    ensures name in SortNames(names) <==> name in names
  {
    SortNamesSorts(names);
    assert name in SortNames(names) <==> name in multiset(SortNames(names));
    assert name in names <==> name in multiset(names);
  }

  // ---------- sorting a set ----------

  /** The sorted listing of a set. */
  ghost function ListingOf(s: set<string>): (keys: seq<string>)
    ensures IsListing(keys, s)
  {
    if s == {} then []
    else
      assert exists x :: IsLeast(x, s) by { var x := LeastExists(s); }
      var x :| IsLeast(x, s);
      var rest := ListingOf(s - {x});
      assert forall i :: 0 <= i < |rest| ==> rest[i] in rest;
      [x] + rest
  }

  /** Lists a set in order by taking the least remaining element each time. */
  method SortKeys(s: set<string>) returns (keys: seq<string>)
    ensures keys == ListingOf(s)
  {
    keys := [];
    var rest := s;
    while rest != {}
      invariant rest <= s
      invariant Sorted(keys)
      invariant forall k :: k in keys <==> k in s - rest
      invariant forall i, k :: 0 <= i < |keys| && k in rest ==> LexLeq(keys[i], k)
      decreases |rest|
    {
      ghost var least := LeastExists(rest);
      var x :| x in rest && forall y :: y in rest ==> LexLeq(x, y);
      assert forall i :: 0 <= i < |keys| ==> keys[i] in keys;
      keys := keys + [x];
      rest := rest - {x};
    }
    ListingUnique(keys, ListingOf(s), s);
  }
}
