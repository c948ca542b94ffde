/** Strings as the Go code handles them: trimming, splitting into lines and joining again. */
module Text {

  /** The characters `unicode.IsSpace` accepts. */
  predicate IsSpace(c: char) {
    || '\t' <= c <= '\r'
    || c == ' '
    || c in {'\U{0085}', '\U{00A0}', '\U{1680}', '\U{2028}', '\U{2029}', '\U{202F}', '\U{205F}', '\U{3000}'}
    || '\U{2000}' <= c <= '\U{200A}'
  }

  /** The cut set of `strings.TrimRight(s, "\r\n")`. */
  predicate IsLineEnd(c: char) { c == '\r' || c == '\n' }

  predicate AllSpace(s: string) {
    forall i :: 0 <= i < |s| ==> IsSpace(s[i])
  }

  function TrimLeft(s: string): string {
    if s == "" || !IsSpace(s[0]) then s else TrimLeft(s[1..])
  }

  function TrimRightBy(s: string, drop: char -> bool): (t: string)
    ensures t <= s
    ensures t == "" || !drop(t[|t| - 1])
  {
    if s == "" || !drop(s[|s| - 1]) then s else TrimRightBy(s[..|s| - 1], drop)
  }

  /** `strings.TrimSpace` */
  function Trim(s: string): string {
    TrimRightBy(TrimLeft(s), IsSpace)
  }

  function TrimLineEnd(s: string): string {
    TrimRightBy(s, IsLineEnd)
  }

  /** The spaces by their code points. */
  lemma SpacesExact(c: char)
    ensures IsSpace(c) <==>
            c as int in {0x09, 0x0A, 0x0B, 0x0C, 0x0D, 0x20, 0x85, 0xA0, 0x1680, 0x2000, 0x2001, 0x2002, 0x2003, 0x2004, 0x2005,
                         0x2006, 0x2007, 0x2008, 0x2009, 0x200A, 0x2028, 0x2029, 0x202F, 0x205F, 0x3000}
  {}

  /** What is dropped from the end of a text: carriage returns and line feeds, all of them. */
  lemma TrimLineEndExact(s: string) returns (n: nat)
    ensures n <= |s| && TrimLineEnd(s) == s[..n]
    ensures forall i :: n <= i < |s| ==> s[i] == '\r' || s[i] == '\n'
    ensures n > 0 ==> s[n - 1] != '\r' && s[n - 1] != '\n'
  {
    var w := TrimRightSplit(s, IsLineEnd);
    n := |TrimLineEnd(s)|;
    assert forall i :: n <= i < |s| ==> s[i] == w[i - n];
  }

  /** A string that begins and ends with a character that is no space. */
  predicate Tight(s: string) {
    s == "" || (!IsSpace(s[0]) && !IsSpace(s[|s| - 1]))
  }

  lemma {:induction false} TrimLeftPadding(w: string, s: string)
    requires AllSpace(w)
    ensures TrimLeft(w + s) == TrimLeft(s)
  {
    if w == "" {
      assert w + s == s;
    } else {
      assert (w + s)[1..] == w[1..] + s;
      TrimLeftPadding(w[1..], s);
    }
  }

  lemma {:induction false} TrimRightPadding(s: string, w: string, drop: char -> bool)
    requires forall i :: 0 <= i < |w| ==> drop(w[i])
    ensures TrimRightBy(s + w, drop) == TrimRightBy(s, drop)
  {
    if w == "" {
      assert s + w == s;
    } else {
      assert (s + w)[..|s + w| - 1] == s + w[..|w| - 1];
      TrimRightPadding(s, w[..|w| - 1], drop);
    }
  }

  lemma {:induction false} TrimLeftSplit(s: string) returns (w: string)
    ensures AllSpace(w) && s == w + TrimLeft(s)
    ensures TrimLeft(s) == "" || !IsSpace(TrimLeft(s)[0])
  {
    hide IsSpace;
    if s == "" || !IsSpace(s[0]) {
      w := "";
    } else {
      var v := TrimLeftSplit(s[1..]);
      w := [s[0]] + v;
    }
  }

  lemma {:induction false} TrimRightSplit(s: string, drop: char -> bool) returns (w: string)
    ensures (forall i :: 0 <= i < |w| ==> drop(w[i])) && s == TrimRightBy(s, drop) + w
  {
    if s == "" || !drop(s[|s| - 1]) {
      w := "";
    } else {
      var v := TrimRightSplit(s[..|s| - 1], drop);
      w := v + [s[|s| - 1]];
    }
  }

  /** What trimming leaves is tight, and only space surrounds it. */
  lemma TrimParts(s: string) returns (left: string, right: string)
    ensures AllSpace(left) && AllSpace(right)
    ensures s == left + Trim(s) + right
    ensures Tight(Trim(s))
  {
    hide IsSpace;
    hide TrimLeft;
    hide TrimRightBy;
    left := TrimLeftSplit(s);
    right := TrimRightSplit(TrimLeft(s), IsSpace);
    assert TrimLeft(s) == Trim(s) + right;
    assert Trim(s) != "" ==> Trim(s)[0] == TrimLeft(s)[0];
  }

  lemma TrimTight(s: string)
    requires Tight(s)
    ensures Trim(s) == s
  {}

  /** Trimming ignores any space around a string, and does nothing else. */
  lemma TrimPadded(left: string, s: string, right: string)
    requires AllSpace(left) && AllSpace(right)
    ensures Trim(left + s + right) == Trim(s)
  {
    assert left + s + right == left + (s + right);
    TrimLeftPadding(left, s + right);
    if AllSpace(s) {
      assert s + right + "" == s + right;
      TrimLeftPadding(s + right, "");
      assert s + "" == s;
      TrimLeftPadding(s, "");
    } else {
      TrimLeftAppend(s, right);
      TrimRightPadding(TrimLeft(s), right, IsSpace);
    }
  }

  lemma {:induction false} TrimLeftAppend(s: string, t: string)
    requires !AllSpace(s)
    ensures TrimLeft(s + t) == TrimLeft(s) + t
  {
    if IsSpace(s[0]) {
      assert (s + t)[1..] == s[1..] + t;
      var i :| 0 <= i < |s| && !IsSpace(s[i]);
      assert s[1..][i - 1] == s[i];
      TrimLeftAppend(s[1..], t);
    }
  }

  lemma TrimIdempotent(s: string)
    ensures Trim(Trim(s)) == Trim(s)
  {
    var _, _ := TrimParts(s);
    TrimTight(Trim(s));
  }

  /** Puts one character in front of a split text. */
  function Prepend(c: char, lines: seq<string>): (r: seq<string>)
    requires |lines| > 0
    ensures |r| > 0
  {
    if c == '\n' then [""] + lines else [[c] + lines[0]] + lines[1..]
  }

  /** `strings.Split(s, "\n")` */
  function Split(s: string): (lines: seq<string>)
    ensures |lines| > 0
    ensures forall i :: 0 <= i < |lines| ==> '\n' !in lines[i]
  {
    if s == "" then [""] else Prepend(s[0], Split(s[1..]))
  }

  /** `strings.Join(lines, "\n")` */
  function Join(lines: seq<string>): string {
    if |lines| == 0 then ""
    else if |lines| == 1 then lines[0]
    else lines[0] + ("\n" + Join(lines[1..]))
  }

  lemma Associative(a: string, b: string, c: string)
    ensures (a + b) + c == a + (b + c)
  {}

  lemma JoinCons(head: string, rest: seq<string>)
    requires |rest| > 0
    ensures Join([head] + rest) == head + ("\n" + Join(rest))
  {
    assert ([head] + rest)[1..] == rest;
  }

  lemma JoinOne(line: string)
    ensures Join([line]) == line
  {}

  lemma JoinBreak(lines: seq<string>)
    requires |lines| > 0
    ensures Join([""] + lines) == "\n" + Join(lines)
  {
    hide Join;
    JoinCons("", lines);
    assert "" + ("\n" + Join(lines)) == "\n" + Join(lines);
  }

  lemma JoinLonger(c: char, head: string, rest: seq<string>)
    ensures Join([[c] + head] + rest) == [c] + Join([head] + rest)
  {
    hide Join;
    if rest == [] {
      JoinOne([c] + head);
      JoinOne(head);
      assert [[c] + head] + rest == [[c] + head] && [head] + rest == [head];
    } else {
      JoinCons([c] + head, rest);
      JoinCons(head, rest);
      Associative([c], head, "\n" + Join(rest));
    }
  }

  lemma JoinPrepend(c: char, lines: seq<string>)
    requires |lines| > 0
    ensures Join(Prepend(c, lines)) == [c] + Join(lines)
  {
    hide Join;
    if c == '\n' {
      JoinBreak(lines);
    } else {
      JoinLonger(c, lines[0], lines[1..]);
      assert lines == [lines[0]] + lines[1..];
    }
  }

  lemma {:induction false} JoinSplit(s: string)
    ensures Join(Split(s)) == s
  {
    if s != "" {
      JoinSplit(s[1..]);
      JoinPrepend(s[0], Split(s[1..]));
    }
  }

  lemma {:induction false} SplitOneLine(line: string)
    requires '\n' !in line
    ensures Split(line) == [line]
  {
    if line != "" {
      SplitOneLine(line[1..]);
      assert line == [line[0]] + line[1..];
    }
  }

  lemma PrependAppend(c: char, a: seq<string>, b: seq<string>)
    requires |a| > 0
    ensures Prepend(c, a + b) == Prepend(c, a) + b
  {
    assert (a + b)[1..] == a[1..] + b;
  }

  /** Splitting meets a line break exactly where two texts were joined by one. */
  lemma {:induction false} SplitAppend(a: string, b: string)
    ensures Split(a + "\n" + b) == Split(a) + Split(b)
  {
    var s := a + "\n" + b;
    if a == "" {
      assert s[1..] == b;
    } else {
      assert s[1..] == a[1..] + "\n" + b;
      SplitAppend(a[1..], b);
      PrependAppend(a[0], Split(a[1..]), Split(b));
    }
  }

  lemma {:induction false} SplitJoin(lines: seq<string>)
    requires |lines| > 0
    requires forall i :: 0 <= i < |lines| ==> '\n' !in lines[i]
    ensures Split(Join(lines)) == lines
  {
    SplitOneLine(lines[0]);
    if |lines| == 1 {
    } else {
      Associative(lines[0], "\n", Join(lines[1..]));
      SplitAppend(lines[0], Join(lines[1..]));
      SplitJoin(lines[1..]);
      assert lines == [lines[0]] + lines[1..];
    }
  }

  /** A split text with more characters on its last line. */
  function ExtendLast(lines: seq<string>, t: string): (r: seq<string>)
    requires |lines| > 0
    ensures |r| == |lines|
  {
    lines[..|lines| - 1] + [lines[|lines| - 1] + t]
  }

  lemma PrependExtend(c: char, lines: seq<string>, t: string)
    requires |lines| > 0
    ensures Prepend(c, ExtendLast(lines, t)) == ExtendLast(Prepend(c, lines), t)
  {
    if c != '\n' && |lines| == 1 {
      assert [c] + (lines[0] + t) == [c] + lines[0] + t;
    }
  }

  /** Appending characters that hold no line break lengthens the last line only. */
  lemma {:induction false} SplitLastLine(a: string, t: string)
    requires '\n' !in t
    ensures Split(a + t) == ExtendLast(Split(a), t)
  {
    if a == "" {
      assert a + t == t;
      SplitOneLine(t);
    } else {
      assert (a + t)[1..] == a[1..] + t;
      SplitLastLine(a[1..], t);
      PrependExtend(a[0], Split(a[1..]), t);
    }
  }

  /** The lines of a text whose line ends at the end were dropped: lines with nothing else in them go,
      down to the first one, and the last line left loses its own. */
  function TrimLines(lines: seq<string>): (r: seq<string>)
    requires |lines| > 0
    ensures |r| > 0
  {
    var init, last := lines[..|lines| - 1], lines[|lines| - 1];
    if init != [] && TrimLineEnd(last) == "" then TrimLines(init) else init + [TrimLineEnd(last)]
  }

  /** Every line up to some line n stays, line n without the line ends at its end; only empty lines follow it. */
  lemma {:induction false} TrimLinesExact(lines: seq<string>) returns (n: nat)
    requires |lines| > 0
    ensures n < |lines| && TrimLines(lines) == lines[..n] + [TrimLineEnd(lines[n])]
    ensures forall j :: n < j < |lines| ==> TrimLineEnd(lines[j]) == ""
    ensures n > 0 ==> TrimLineEnd(lines[n]) != ""
  {
    var init := lines[..|lines| - 1];
    if init != [] && TrimLineEnd(lines[|lines| - 1]) == "" {
      n := TrimLinesExact(init);
      assert init[..n] == lines[..n];
    } else {
      n := |lines| - 1;
    }
  }

  lemma TrimLinesExtend(lines: seq<string>, t: string)
    requires |lines| > 0 && TrimLineEnd(t) == ""
    ensures TrimLines(ExtendLast(lines, t)) == TrimLines(lines)
  {
    var longer := ExtendLast(lines, t);
    assert longer[..|longer| - 1] == lines[..|lines| - 1];
    TrimmedAway(t);
    TrimRightPadding(lines[|lines| - 1], t, IsLineEnd);
  }

  lemma {:induction false} TrimmedAway(t: string)
    requires TrimLineEnd(t) == ""
    ensures forall i :: 0 <= i < |t| ==> IsLineEnd(t[i])
  {
    if t != "" { TrimmedAway(t[..|t| - 1]); }
  }

  lemma TrimLinesOpen(lines: seq<string>)
    requires |lines| > 0
    ensures TrimLines(lines + [""]) == TrimLines(lines)
  {
    assert (lines + [""])[..|lines|] == lines;
  }

  /** Trimming a text trims its lines. */
  lemma {:induction false} SplitTrimmed(s: string)
    ensures Split(TrimLineEnd(s)) == TrimLines(Split(s))
  {
    if s == "" {
      assert Split(s) == [""];
    } else {
      var init, last := s[..|s| - 1], s[|s| - 1];
      assert s == init + [last];
      if last == '\n' {
        assert s == init + "\n" + "";
        SplitAppend(init, "");
        TrimLinesOpen(Split(init));
        SplitTrimmed(init);
      } else {
        SplitLastLine(init, [last]);
        if IsLineEnd(last) {
          TrimLinesExtend(Split(init), [last]);
          SplitTrimmed(init);
        } else {
          var lines := Split(s);
          assert lines[|lines| - 1] == Split(init)[|Split(init)| - 1] + [last];
          assert lines == lines[..|lines| - 1] + [lines[|lines| - 1]];
        }
      }
    }
  }
}
