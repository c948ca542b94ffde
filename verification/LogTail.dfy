/** The last lines of a log, read backwards in chunks up to a cap. */
module LogTail {
  import opened Wrappers
  import opened Text

  /** One byte; a line break is the byte 10. */
  type Byte = c: char | (c as int) < 256 witness '\n'
  type Bytes = seq<Byte>

  const CHUNK_SIZE: nat := 64 * 1024
  const MAX_TAIL_READ_BYTES: nat := 10 * 1024 * 1024
  const MAX_TAIL_LINES: nat := 5000

  function Newlines(s: string): nat {
    if s == "" then 0 else (if s[0] == '\n' then 1 else 0) + Newlines(s[1..])
  }

  predicate EndsLine(s: string) {
    s != "" && s[|s| - 1] == '\n'
  }

  /** How many lines a text has; a final line break ends the last line and opens no new one. */
  function LineCount(s: string): nat {
    Newlines(s) + if EndsLine(s) then 0 else 1
  }

  function LastOf(parts: seq<string>, n: nat): seq<string> {
    if |parts| > n then parts[|parts| - n..] else parts
  }

  function FormatTail(data: string, lines: nat): string {
    var split := Split(data);
    var parts := if EndsLine(data) then split[..|split| - 1] else split;
    var result := Join(LastOf(parts, lines));
    if EndsLine(data) && result != "" then result + "\n" else result
  }

  // ---------- the window that is read ----------

  /** Where the backward read stops: at the start of the data, at the cap, or after enough line breaks. */
  function WindowStart(data: string, end: nat, lines: nat): (start: nat)
    requires end <= |data|
    ensures start <= end
    decreases end
  {
    var total := |data| - end;
    if end == 0 || total >= MAX_TAIL_READ_BYTES || Newlines(data[end..]) >= lines then end
    else
      var readSize := if CHUNK_SIZE <= MAX_TAIL_READ_BYTES - total then CHUNK_SIZE else MAX_TAIL_READ_BYTES - total;
      WindowStart(data, if readSize <= end then end - readSize else 0, lines)
  }

  function Window(data: string, lines: nat): string {
    data[WindowStart(data, |data|, lines)..]
  }

  /** Chunks that were collected back to front, put in file order. */
  function InOrder(chunks: seq<Bytes>): Bytes {
    if chunks == [] then [] else chunks[|chunks| - 1] + InOrder(chunks[..|chunks| - 1])
  }

  lemma NoNewlines()
    ensures Newlines("") == 0
  {}

  lemma InOrderMore(chunks: seq<Bytes>, chunk: Bytes)
    ensures InOrder(chunks + [chunk]) == chunk + InOrder(chunks)
  {
    assert (chunks + [chunk])[..|chunks|] == chunks;
  }

  lemma ChunkBefore(data: string, file: string, start: nat, end: nat)
    requires start <= end <= |data| <= |file| && data == file[..|data|]
    ensures data[start..] == file[start..end] + data[end..]
  {}

  method CountNewlines(chunk: Bytes) returns (n: nat)
    ensures n == Newlines(chunk)
  {
    n := 0;
    var i := |chunk|;
    assert chunk[i..] == [];
    while i > 0
      invariant 0 <= i <= |chunk| && n == Newlines(chunk[i..])
    {
      i := i - 1;
      assert chunk[i..][1..] == chunk[i + 1..];
      if chunk[i] == '\n' {
        n := n + 1;
      }
    }
    assert chunk[0..] == chunk;
  }

  /** `readTailChunks` over the first `size` bytes of a file. */
  method ReadTailChunks(file: Bytes, size: nat, lines: nat) returns (window: Bytes)
    requires size <= |file|
    ensures window == Window(file[..size], lines)
  {
    hide Newlines;
    ghost var data := file[..size];
    var chunks: seq<Bytes> := [];
    var totalBytes, newlines, end := 0, 0, size;
    assert data[end..] == [] && Newlines("") == 0 by { NoNewlines(); }
    while end > 0 && totalBytes < MAX_TAIL_READ_BYTES && newlines < lines
      invariant 0 <= end <= size && totalBytes == size - end && newlines == Newlines(data[end..])
      invariant InOrder(chunks) == data[end..]
      invariant WindowStart(data, end, lines) == WindowStart(data, size, lines)
      decreases end
    {
      var readSize := if CHUNK_SIZE <= MAX_TAIL_READ_BYTES - totalBytes then CHUNK_SIZE else MAX_TAIL_READ_BYTES - totalBytes;
      var start := if readSize <= end then end - readSize else 0;
      var chunk := file[start..end];
      ChunkBefore(data, file, start, end);
      InOrderMore(chunks, chunk);
      chunks := chunks + [chunk];
      totalBytes := totalBytes + |chunk|;
      var found := CountNewlines(chunk);
      NewlinesAppend(chunk, data[end..]);
      newlines := newlines + found;
      end := start;
    }
    window := Concat(chunks);
  }

  /** `slices.Reverse` and `slices.Concat` */
  method Concat(chunks: seq<Bytes>) returns (all: Bytes)
    ensures all == InOrder(chunks)
  {
    all := [];
    var i := |chunks|;
    assert chunks[..i] == chunks;
    while i > 0
      invariant 0 <= i <= |chunks|
      invariant all + InOrder(chunks[..i]) == InOrder(chunks)
    {
      i := i - 1;
      assert chunks[..i + 1][..i] == chunks[..i];
      all := all + chunks[i];
    }
  }

  lemma {:induction false} NewlinesAppend(a: string, b: string)
    ensures Newlines(a + b) == Newlines(a) + Newlines(b)
  {
    if a == "" {
      assert a + b == b;
    } else {
      assert (a + b)[1..] == a[1..] + b;
      NewlinesAppend(a[1..], b);
    }
  }

  /** The read ends for one of its three reasons and stays within the cap. */
  lemma {:induction false} WindowEnds(data: string, end: nat, lines: nat)
    requires end <= |data| && |data| - end <= MAX_TAIL_READ_BYTES
    ensures var start := WindowStart(data, end, lines);
            && |data| - start <= MAX_TAIL_READ_BYTES
            && (start == 0 || |data| - start == MAX_TAIL_READ_BYTES || Newlines(data[start..]) >= lines)
    decreases end
  {
    var total := |data| - end;
    if end > 0 && total < MAX_TAIL_READ_BYTES && Newlines(data[end..]) < lines {
      var readSize := if CHUNK_SIZE <= MAX_TAIL_READ_BYTES - total then CHUNK_SIZE else MAX_TAIL_READ_BYTES - total;
      WindowEnds(data, if readSize <= end then end - readSize else 0, lines);
    }
  }

  predicate WholeChunks(n: int) { n % 65536 == 0 }

  lemma NextChunk(n: int)
    requires WholeChunks(n)
    ensures WholeChunks(n + 65536) && forall k :: n < k < n + 65536 ==> !WholeChunks(k)
    ensures n < 10485760 ==> n + 65536 <= 10485760
  {}

  /** The window is the least number of 64 KiB chunks at the end that holds enough line breaks, at most 10 MiB of them,
      or the whole file where that is shorter. */
  lemma {:induction false} WindowExact(data: string, end: nat, lines: nat)
    requires end <= |data| && |data| - end <= 10485760 && WholeChunks(|data| - end)
    ensures var start := WindowStart(data, end, lines);
            && (start > 0 ==> WholeChunks(|data| - start) && |data| - start <= 10485760)
            && (start > 0 && |data| - start < 10485760 ==> Newlines(data[start..]) >= lines)
            && (forall e :: start < e <= end && WholeChunks(|data| - e) ==> Newlines(data[e..]) < lines)
    decreases end
  {
    hide Newlines;
    var total := |data| - end;
    NextChunk(total);
    hide WholeChunks;
    if end > 0 && total < MAX_TAIL_READ_BYTES && Newlines(data[end..]) < lines {
      var next := if CHUNK_SIZE <= end then end - CHUNK_SIZE else 0;
      if CHUNK_SIZE <= end { WindowExact(data, next, lines); }
      assert WindowStart(data, end, lines) == WindowStart(data, next, lines);
      forall e | WindowStart(data, end, lines) < e <= end && WholeChunks(|data| - e) ensures Newlines(data[e..]) < lines {
        if next < e { assert e == end by { assert !(total < |data| - e < total + 65536); } }
      }
    }
  }

  // ---------- what formatting keeps ----------

  /** The text after its first k lines. */
  function SkipLines(s: string, k: nat): string {
    if k == 0 || s == "" then s
    else if s[0] == '\n' then SkipLines(s[1..], k - 1)
    else SkipLines(s[1..], k)
  }

  /** A tail that would be one bare line break is shown as nothing. */
  function Shown(s: string): string {
    if s == "\n" then "" else s
  }

  lemma {:induction false} SplitCount(s: string)
    ensures |Split(s)| == Newlines(s) + 1
    ensures Split(s)[|Split(s)| - 1] == "" <==> s == "" || EndsLine(s)
  {
    if s != "" {
      SplitCount(s[1..]);
      var rest := Split(s[1..]);
      if |s| > 1 { assert s[1..][|s[1..]| - 1] == s[|s| - 1]; }
    }
  }

  lemma {:induction false} SkipJoins(s: string, k: nat)
    requires k <= Newlines(s)
    ensures k < |Split(s)| && Join(Split(s)[k..]) == SkipLines(s, k)
  {
    SplitCount(s);
    if k == 0 {
      JoinSplit(s);
      assert Split(s)[0..] == Split(s);
    } else if s[0] == '\n' {
      SkipJoins(s[1..], k - 1);
      assert Split(s)[k..] == Split(s[1..])[k - 1..];
    } else {
      SkipJoins(s[1..], k);
      assert Split(s)[k..] == Split(s[1..])[k..];
    }
  }

  lemma {:induction false} JoinClosed(parts: seq<string>)
    requires parts != []
    ensures Join(parts + [""]) == Join(parts) + "\n"
  {
    if |parts| == 1 {
      assert (parts + [""])[1..] == [""];
      assert parts[0] + ("\n" + "") == parts[0] + "\n";
    } else {
      assert (parts + [""])[1..] == parts[1..] + [""];
      JoinClosed(parts[1..]);
      Associative(parts[0], "\n" + Join(parts[1..]), "\n");
      Associative("\n", Join(parts[1..]), "\n");
    }
  }

  function Excess(count: nat, lines: nat): nat {
    if count > lines then count - lines else 0
  }

  /** Formatting drops the lines before the last ones, and nothing else but a lone line break. */
  lemma FormatSkips(data: string, lines: nat)
    requires lines > 0
    ensures FormatTail(data, lines) == Shown(SkipLines(data, Excess(LineCount(data), lines)))
  {
    hide *;
    if EndsLine(data) { FormatClosed(data, lines); } else { FormatOpen(data, lines); }
  }

  lemma FormatClosed(data: string, lines: nat)
    requires lines > 0 && EndsLine(data)
    ensures FormatTail(data, lines) == Shown(SkipLines(data, Excess(LineCount(data), lines)))
  {
    ClosedCounts(data, lines);
    hide *;
    var k := Excess(LineCount(data), lines);
    SkipJoins(data, k);
    ClosedTail(Split(data), k, lines);
    FormatUnfolds(data, lines);
  }

  /** What formatting makes of the parts of a text that ends with a line break. */
  function ClosedForm(split: seq<string>, lines: nat): string
    requires split != []
  {
    var result := Join(LastOf(split[..|split| - 1], lines));
    if result != "" then result + "\n" else result
  }

  lemma FormatUnfolds(data: string, lines: nat)
    requires EndsLine(data)
    ensures FormatTail(data, lines) == ClosedForm(Split(data), lines)
  {
    hide Split;
    hide Join;
    hide LastOf;
    hide EndsLine;
  }

  lemma ClosedCounts(data: string, lines: nat)
    requires lines > 0 && EndsLine(data)
    ensures var split := Split(data);
            var k := Excess(LineCount(data), lines);
            split[|split| - 1] == "" && k <= Newlines(data) && k < |split| - 1 && k == Excess(|split| - 1, lines)
  {
    hide Split;
    hide Newlines;
    SplitCount(data);
    ExcessWithin(data, lines);
  }

  lemma FormatOpen(data: string, lines: nat)
    requires lines > 0 && !EndsLine(data)
    ensures FormatTail(data, lines) == Shown(SkipLines(data, Excess(LineCount(data), lines)))
  {
    hide Split;
    hide Join;
    hide SkipLines;
    hide Newlines;
    var k := Excess(LineCount(data), lines);
    SplitCount(data);
    ExcessWithin(data, lines);
    SkipJoins(data, k);
    assert LastOf(Split(data), lines) == Split(data)[k..];
    OpenShown(data, k);
  }

  /** What is left of a text without a final line break is no lone line break. */
  lemma OpenShown(data: string, k: nat)
    requires !EndsLine(data)
    ensures Shown(SkipLines(data, k)) == SkipLines(data, k)
  {
    hide SkipLines;
    if SkipLines(data, k) != "" { SkipEnds(data, k); }
  }

  /** Leaving out the empty part after the last line break, and putting that break back. */
  lemma ClosedTail(split: seq<string>, k: nat, lines: nat)
    requires lines > 0 && split != [] && split[|split| - 1] == "" && k < |split| - 1 && k == Excess(|split| - 1, lines)
    ensures ClosedForm(split, lines) == Shown(Join(split[k..]))
  {
    hide Join;
    var parts := split[..|split| - 1];
    var kept := LastOf(parts, lines);
    assert kept == parts[k..];
    assert split[k..] == kept + [""];
    JoinClosed(kept);
  }

  lemma ExcessWithin(data: string, lines: nat)
    requires lines > 0
    ensures Excess(LineCount(data), lines) <= Newlines(data)
    ensures EndsLine(data) ==> Excess(LineCount(data), lines) < Newlines(data)
  {
    if EndsLine(data) { EndsLineCounts(data); }
  }

  lemma {:induction false} SkipEnds(s: string, k: nat)
    requires SkipLines(s, k) != ""
    ensures s != "" && SkipLines(s, k)[|SkipLines(s, k)| - 1] == s[|s| - 1]
  {
    if k > 0 {
      if s[0] == '\n' { SkipEnds(s[1..], k - 1); } else { SkipEnds(s[1..], k); }
    }
  }

  /** Skipping fewer lines than the first part has leaves the second part whole. */
  lemma {:induction false} SkipWithin(a: string, b: string, k: nat)
    requires k <= Newlines(a)
    ensures SkipLines(a + b, k) == SkipLines(a, k) + b
  {
    if k > 0 {
      assert (a + b)[1..] == a[1..] + b;
      if a[0] == '\n' { SkipWithin(a[1..], b, k - 1); } else { SkipWithin(a[1..], b, k); }
    }
  }

  lemma {:induction false} SkipBeyond(a: string, b: string, k: nat)
    requires k > Newlines(a)
    ensures SkipLines(a + b, k) == SkipLines(b, k - Newlines(a))
  {
    if a == "" {
      assert a + b == b;
    } else {
      assert (a + b)[1..] == a[1..] + b;
      if a[0] == '\n' { SkipBeyond(a[1..], b, k - 1); } else { SkipBeyond(a[1..], b, k); }
    }
  }

  lemma {:induction false} EndsLineCounts(s: string)
    requires EndsLine(s)
    ensures Newlines(s) > 0
  {
    if |s| > 1 {
      assert s[1..][|s[1..]| - 1] == s[|s| - 1];
      EndsLineCounts(s[1..]);
    }
  }

  lemma {:induction false} SkipToEnd(s: string, k: nat)
    requires k <= Newlines(s)
    ensures SkipLines(s, k) == "" <==> k == Newlines(s) && (s == "" || EndsLine(s))
  {
    if EndsLine(s) { EndsLineCounts(s); }
    if k > 0 {
      if |s| > 1 { assert s[1..][|s[1..]| - 1] == s[|s| - 1]; }
      if s[0] == '\n' { SkipToEnd(s[1..], k - 1); } else { SkipToEnd(s[1..], k); }
    }
  }

  lemma CountParts(before: string, window: string)
    requires window != ""
    ensures LineCount(before + window) == Newlines(before) + LineCount(window)
  {
    NewlinesAppend(before, window);
    assert (before + window)[|before + window| - 1] == window[|window| - 1];
  }

  /** A window's tail is a suffix of the whole tail; the two are the same exactly when the window is the
      whole, or has more lines than asked for, or has just as many and begins at the start of a line. */
  lemma WindowTail(before: string, window: string, lines: nat)
    requires lines > 0 && window != ""
    ensures var whole, part := FormatTail(before + window, lines), FormatTail(window, lines);
            && (exists head: string :: whole == head + part)
            && (whole == part <==> before == "" || LineCount(window) > lines
                                   || (LineCount(window) == lines && EndsLine(before)))
  {
    hide FormatTail;
    hide SkipLines;
    hide LineCount;
    hide Newlines;
    var data := before + window;
    FormatSkips(data, lines);
    FormatSkips(window, lines);
    CountParts(before, window);
    var k := Excess(LineCount(data), lines);
    if LineCount(window) > lines {
      CountAtLeast(before, window);
      SkipBeyond(before, window, k);
      assert FormatTail(data, lines) == "" + FormatTail(window, lines);
    } else {
      SkipWithin(before, window, k);
      SkipToEnd(before, k);
      SkipNone(window);
      HeadTail(SkipLines(before, k), window, FormatTail(data, lines), FormatTail(window, lines));
      NoNewlines();
      if EndsLine(before) { EndsLineCounts(before); }
    }
  }

  lemma CountAtLeast(before: string, window: string)
    requires window != ""
    ensures Newlines(window) <= LineCount(window) <= Newlines(window) + 1
  {}

  lemma SkipNone(s: string)
    ensures SkipLines(s, 0) == s
  {}

  lemma HeadTail(head: string, window: string, whole: string, part: string)
    requires window != "" && whole == Shown(head + window) && part == Shown(window)
    ensures exists h: string :: whole == h + part
    ensures whole == part <==> head == ""
  {
    if head == "" {
      assert head + window == window;
      assert whole == "" + part;
    } else {
      assert |head + window| > 1;
      if window == "\n" { assert whole == whole + ""; }
    }
  }

  /** `tailFileLines` on the first `size` bytes of an existing file. */
  method TailFile(file: Bytes, size: nat, lines: int) returns (r: Option<string>)
    requires size <= |file|
    ensures r == if 1 <= lines <= MAX_TAIL_LINES then Some(FormatTail(Window(file[..size], lines), lines)) else None
    ensures r.Some? <==> 1 <= lines <= 5000
  {
    if lines < 1 || lines > MAX_TAIL_LINES {
      return None;
    }
    var window := ReadTailChunks(file, size, lines);
    return Some(FormatTail(window, lines));
  }

  /** The chunked tail is always a suffix of the tail of the whole file, and exactly when it is all of it. */
  lemma TailAgrees(data: Bytes, lines: nat)
    requires 0 < lines
    ensures var start := WindowStart(data, |data|, lines);
            var window := Window(data, lines);
            var whole, part := FormatTail(data, lines), FormatTail(window, lines);
            && |window| <= MAX_TAIL_READ_BYTES
            && (exists head: string :: whole == head + part)
            && (whole == part <==> start == 0 || LineCount(window) > lines
                                   || (LineCount(window) == lines && data[start - 1] == '\n'))
            && (Newlines(window) > lines || (Newlines(window) >= lines && !EndsLine(data)) ==> whole == part)
  {
    hide *;
    var start := WindowStart(data, |data|, lines);
    WindowIs(data, lines);
    if start == |data| {
      WholeTail(data, lines);
    } else {
      var before, window := data[..start], data[start..];
      assert data == before + window;
      WindowTail(before, window, lines);
      WindowLines(data, start, lines);
    }
  }

  /** The window and why the read stopped there; an empty one is left only by an empty file. */
  lemma WindowIs(data: Bytes, lines: nat)
    requires 0 < lines
    ensures var start := WindowStart(data, |data|, lines);
            && Window(data, lines) == data[start..] && |data| - start <= MAX_TAIL_READ_BYTES
            && (start == |data| ==> data == "")
            && (start == 0 || |data| - start == MAX_TAIL_READ_BYTES || Newlines(data[start..]) >= lines)
  {
    hide WindowStart;
    hide Newlines;
    assert data[|data|..] == "";
    NoNewlines();
    WindowEnds(data, |data|, lines);
  }

  lemma WholeTail(data: Bytes, lines: nat)
    requires 0 < lines && WindowStart(data, |data|, lines) == |data|
    ensures data == "" && Window(data, lines) == data
    ensures exists head: string :: FormatTail(data, lines) == head + FormatTail(Window(data, lines), lines)
  {
    hide WindowStart;
    hide FormatTail;
    WindowIs(data, lines);
    assert FormatTail(data, lines) == "" + FormatTail(data, lines);
  }

  /** What the lines of the window say in terms of the file. */
  lemma WindowLines(data: string, start: nat, lines: nat)
    requires start < |data|
    ensures data[..start] == "" <==> start == 0
    ensures EndsLine(data[..start]) <==> start > 0 && data[start - 1] == '\n'
    ensures EndsLine(data[start..]) <==> EndsLine(data)
    ensures LineCount(data[start..]) == Newlines(data[start..]) + if EndsLine(data) then 0 else 1
  {
    hide Newlines;
    assert data[start..][|data[start..]| - 1] == data[|data| - 1];
  }

  lemma {:induction false} NoBreaks(s: string)
    requires '\n' !in s
    ensures Newlines(s) == 0
  {
    if s != "" { NoBreaks(s[1..]); }
  }

  /** One line of 64 KiB and its line break: the window for one line begins one byte late, and shows a part of it. */
  lemma LongLineIsCut()
    ensures var data: Bytes := seq(65536, i => 'a') + "\n";
            && LineCount(data) == 1 && FormatTail(data, 1) == data
            && FormatTail(Window(data, 1), 1) == data[1..]
  {
    hide FormatTail;
    hide SkipLines;
    var body: Bytes := seq(65536, i => 'a');
    var data: Bytes := body + "\n";
    NoBreaks(body);
    NoBreaks(body[1..]);
    NewlinesAppend(body, "\n");
    NewlinesAppend(body[1..], "\n");
    assert data[1..] == body[1..] + "\n" && data[|data|..] == "";
    assert Newlines("\n") == 1 by { OneBreak(); }
    assert EndsLine(data) && EndsLine(data[1..]);
    OneChunk(data);
    FormatSkips(data, 1);
    FormatSkips(data[1..], 1);
    SkipNone(data);
    SkipNone(data[1..]);
  }

  lemma OneBreak()
    ensures Newlines("\n") == 1
  {
    assert "\n"[1..] == "";
  }

  lemma OneChunk(data: string)
    requires |data| == CHUNK_SIZE + 1 && Newlines(data[1..]) >= 1
    ensures Window(data, 1) == data[1..]
  {
    hide Newlines;
    assert data[|data|..] == "";
    NoNewlines();
    assert WindowStart(data, 1, 1) == 1;
    assert WindowStart(data, |data|, 1) == 1;
  }
}
