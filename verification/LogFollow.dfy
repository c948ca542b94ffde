/** Following a log: what each poll of the file adds to the output. */
module LogFollow {
  import opened Wrappers
  import opened LogTail

  /** A file as one poll finds it: which file it is, and its content. */
  datatype File = File(inode: int, content: Bytes)

  /** The file of the last poll, and how much of it has been written out. */
  datatype Position = Position(previous: Option<int>, offset: nat)

  function Resume(p: Position, file: File): nat {
    if p.previous != Some(file.inode) || |file.content| < p.offset then 0 else p.offset
  }

  function CopyFrom(content: Bytes, offset: nat): Bytes {
    if |content| <= offset then [] else content[offset..]
  }

  /** `followUpdate`: the next position and what is written. A missing file forgets the position. */
  function Update(p: Position, poll: Option<File>): (Position, Bytes) {
    match poll
    case None => (Position(None, 0), [])
    case Some(file) => (Position(Some(file.inode), |file.content|), CopyFrom(file.content, Resume(p, file)))
  }

  function InitialPosition(poll: Option<File>): Position {
    match poll
    case None => Position(None, 0)
    case Some(file) => Position(Some(file.inode), |file.content|)
  }

  function InitialTail(poll: Option<File>, lines: nat): string {
    if poll.None? then "" else FormatTail(Window(poll.value.content, lines), lines)
  }

  class Follower {
    var previous: Option<int>
    var offset: nat
    var out: string

    ghost function View(): Position
      reads this
    {
      Position(previous, offset)
    }

    /** `writeInitialTail`: the tail that is written and the offset come from the same view of the file. */
    constructor (poll: Option<File>, lines: nat)
      ensures View() == InitialPosition(poll) && out == InitialTail(poll, lines)
      ensures if poll.None? then out == "" && previous == None && offset == 0
              else out == FormatTail(Window(poll.value.content, lines), lines) && previous == Some(poll.value.inode)
                   && offset == |poll.value.content|
    {
      if poll.None? {
        previous, offset, out := None, 0, "";
      } else {
        var file := poll.value;
        var window := ReadTailChunks(file.content, |file.content|, lines);
        assert file.content[..|file.content|] == file.content;
        previous, offset, out := Some(file.inode), |file.content|, FormatTail(window, lines);
      }
    }

    /** The output only grows. A file that went on from the last position adds what is new in it,
        any other file all it holds, and a missing file nothing. */
    method Poll(poll: Option<File>)
      modifies this
      ensures View() == Update(old(View()), poll).0
      ensures out == old(out) + Update(old(View()), poll).1
      ensures poll.None? ==> out == old(out) && View() == Position(None, 0)
      ensures poll.Some? ==>
        var content := poll.value.content;
        var same := old(previous) == Some(poll.value.inode) && old(offset) <= |content|;
        && previous == Some(poll.value.inode) && offset == |content|
        && out == old(out) + if same then content[old(offset)..] else content
    {
      if poll.None? {
        previous, offset := None, 0;
        assert out + [] == out;
        return;
      }
      var file := poll.value;
      if previous.None? || previous.value != file.inode || |file.content| < offset {
        offset := 0;
      }
      if offset < |file.content| {
        out := out + file.content[offset..];
      } else {
        assert out + [] == out;
      }
      previous, offset := Some(file.inode), |file.content|;
    }
  }

  function Written(p: Position, polls: seq<Option<File>>): Bytes
    decreases |polls|
  {
    if polls == [] then []
    else Update(p, polls[0]).1 + Written(Update(p, polls[0]).0, polls[1..])
  }

  lemma WrittenFirst(p: Position, poll: Option<File>, rest: seq<Option<File>>)
    ensures Written(p, [poll] + rest) == Update(p, poll).1 + Written(Update(p, poll).0, rest)
  {
    assert ([poll] + rest)[1..] == rest;
  }

  /** `FollowLog` over the polls until the context ends: the tail of the first view, then what each poll adds. */
  method FollowLog(first: Option<File>, polls: seq<Option<File>>, lines: int) returns (r: Option<string>)
    ensures r == if 1 <= lines <= MAX_TAIL_LINES then Some(InitialTail(first, lines) + Written(InitialPosition(first), polls)) else None
    ensures r.Some? <==> 1 <= lines <= 5000
  {
    hide Update;
    hide InitialTail;
    hide InitialPosition;
    hide FormatTail;
    hide Window;
    if lines < 1 || lines > MAX_TAIL_LINES {
      return None;
    }
    var follower := new Follower(first, lines);
    assert polls[0..] == polls;
    for i := 0 to |polls|
      invariant follower.out + Written(follower.View(), polls[i..])
             == InitialTail(first, lines) + Written(InitialPosition(first), polls)
    {
      assert polls[i..] == [polls[i]] + polls[i + 1..];
      WrittenFirst(follower.View(), polls[i], polls[i + 1..]);
      ghost var before, added := follower.out, Update(follower.View(), polls[i]).1;
      follower.Poll(polls[i]);
      assert (before + added) + Written(follower.View(), polls[i + 1..]) == before + (added + Written(follower.View(), polls[i + 1..]));
    }
    assert polls[|polls|..] == [];
    assert follower.out + [] == follower.out;
    return Some(follower.out);
  }

  /** The polls show one file that only grows, from some content on. */
  ghost predicate Growing(inode: int, content: Bytes, polls: seq<Option<File>>)
    decreases |polls|
  {
    polls == [] || (
      polls[0].Some? && polls[0].value.inode == inode && content <= polls[0].value.content
      && Growing(inode, polls[0].value.content, polls[1..]))
  }

  /** The content at the last poll that found the file. */
  function LastContent(content: Bytes, polls: seq<Option<File>>): Bytes
    decreases |polls|
  {
    if polls == [] then content
    else LastContent(if polls[0].Some? then polls[0].value.content else content, polls[1..])
  }

  /** While a file only grows, the output is exactly what lies between the offset and the last size. */
  lemma {:induction false} EachByteOnce(inode: int, content: Bytes, polls: seq<Option<File>>)
    requires Growing(inode, content, polls)
    ensures content <= LastContent(content, polls)
    ensures Written(Position(Some(inode), |content|), polls) == LastContent(content, polls)[|content|..]
    decreases |polls|
  {
    if polls != [] {
      var next := polls[0].value.content;
      EachByteOnce(inode, next, polls[1..]);
      var last := LastContent(content, polls);
      assert CopyFrom(next, |content|) == next[|content|..] == last[|content|..|next|];
      assert last[|content|..|next|] + last[|next|..] == last[|content|..];
    }
  }

  /** A replaced, shrunken or reappeared file is written from its start, and then each byte once. */
  lemma RestartsAtZero(p: Position, file: File, polls: seq<Option<File>>)
    requires p.previous != Some(file.inode) || |file.content| < p.offset
    requires Growing(file.inode, file.content, polls)
    ensures Written(p, [Some(file)] + polls) == LastContent(file.content, polls)
  {
    var all := [Some(file)] + polls;
    assert all[1..] == polls;
    EachByteOnce(file.inode, file.content, polls);
    var last := LastContent(file.content, polls);
    assert CopyFrom(file.content, 0) == file.content == last[..|file.content|];
    assert last[..|file.content|] + last[|file.content|..] == last;
  }
}
