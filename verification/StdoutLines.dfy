/** Splitting the daemon's stdout into lines, whatever the chunks it arrives in. */
module StdoutLines {
  import opened Text

  const NOTICE_PREFIX := "@@RELIANT_STREAM"
  const NEWLINE := '\n'

  /** What a line does: announce a stream, or go to the log. */
  datatype Item = Notice(stream: string) | Log(text: string)

  /** What one line does: at most one thing, and nothing when it is blank. */
  function ItemsOf(line: string): seq<Item> {
    var trimmed := Trim(line);
    if trimmed == "" then []
    else if NOTICE_PREFIX <= trimmed then [Notice(Trim(trimmed[|NOTICE_PREFIX|..]))]
    else [Log(trimmed)]
  }

  function Items(lines: seq<string>): seq<Item> {
    if lines == [] then [] else ItemsOf(lines[0]) + Items(lines[1..])
  }

  /** The unfinished last line, and everything handled so far in order. */
  datatype State = State(tail: string, handled: seq<Item>)

  function Consumed(s: State, chunk: string): State {
    var pieces := Split(s.tail + chunk, NEWLINE);
    State(Last(pieces), s.handled + Items(Init(pieces)))
  }

  class DaemonOutput {
    var tail: string
    var handled: seq<Item>

    constructor ()
      ensures View() == State("", [])
    {
      tail, handled := "", [];
    }

    ghost function View(): State
      reads this
    {
      State(tail, handled)
    }

    method HandleLine(line: string)
      modifies this`handled
      ensures handled == old(handled) + ItemsOf(line)
    {
      var trimmed := Trim(line);
      if trimmed == "" {
        return;
      }
      if NOTICE_PREFIX <= trimmed {
        handled := handled + [Notice(Trim(trimmed[|NOTICE_PREFIX|..]))];
      } else {
        handled := handled + [Log(trimmed)];
      }
    }

    method Consume(chunk: string)
      modifies this
      ensures View() == Consumed(old(View()), chunk)
    {
      NoItems();
      hide Split, ItemsOf, Items, Trim, Last, Init;
      var pieces := Split(tail + chunk, NEWLINE);
      tail := Last(pieces);
      var lines := Init(pieces);
      ghost var before := handled;
      var i := 0;
      assert lines[..0] == [];
      while i < |lines|
        invariant 0 <= i <= |lines|
        invariant handled == before + Items(lines[..i]) && tail == Last(pieces)
      {
        ItemsGrow(lines, i);
        HandleLine(lines[i]);
        Associate(before, Items(lines[..i]), ItemsOf(lines[i]));
        i := i + 1;
      }
      assert lines[..|lines|] == lines;
    }
  }

  lemma NoItems()
    ensures Items([]) == []
  {
  }

  lemma ItemsGrow(lines: seq<string>, i: nat)
    requires i < |lines|
    ensures Items(lines[..i + 1]) == Items(lines[..i]) + ItemsOf(lines[i])
  {
    hide ItemsOf;
    assert lines[..i + 1] == lines[..i] + [lines[i]];
    ItemsAppend(lines[..i], [lines[i]]);
    assert Items([lines[i]]) == ItemsOf(lines[i]) + Items([]);
  }

  lemma Associate(a: seq<Item>, b: seq<Item>, c: seq<Item>)
    ensures a + (b + c) == a + b + c
  {
  }

  lemma {:induction false} ItemsAppend(a: seq<string>, b: seq<string>)
    ensures Items(a + b) == Items(a) + Items(b)
  {
    hide ItemsOf;
    if a == [] {
      assert a + b == b;
    } else {
      ItemsAppend(a[1..], b);
      assert (a + b)[1..] == a[1..] + b && (a + b)[0] == a[0];
      Associate(ItemsOf(a[0]), Items(a[1..]), Items(b));
    }
  }

  // ---------------------------------------------------------------- Chunking

  function Joined(chunks: seq<string>): string {
    if chunks == [] then "" else Joined(chunks[..|chunks| - 1]) + chunks[|chunks| - 1]
  }

  function After(chunks: seq<string>): State {
    if chunks == [] then State("", []) else Consumed(After(chunks[..|chunks| - 1]), chunks[|chunks| - 1])
  }

  /** What the whole output says, read at once. */
  function Whole(text: string): State {
    var pieces := Split(text, NEWLINE);
    State(Last(pieces), Items(Init(pieces)))
  }

  lemma {:induction false} PiecesHaveNoSeparator(s: string, sep: char)
    ensures forall p | p in Split(s, sep) :: sep !in p
  {
    if s != "" {
      PiecesHaveNoSeparator(s[1..], sep);
    }
  }

  /** Reading on from an unfinished line is reading the whole text again and dropping what was finished. */
  lemma ConsumeExtends(text: string, chunk: string)
    ensures Consumed(Whole(text), chunk) == Whole(text + chunk)
  {
    hide Split, ItemsOf, Items;
    var a, b := Split(text, NEWLINE), Split(chunk, NEWLINE);
    PiecesHaveNoSeparator(text, NEWLINE);
    assert Last(a) in a;
    SplitGlues(text, chunk, NEWLINE);
    SplitGlues(Last(a), chunk, NEWLINE);
    SplitWithoutSeparator(Last(a), NEWLINE);
    var continued := Split(Last(a) + chunk, NEWLINE);
    assert continued == [Last(a) + b[0]] + b[1..];
    assert Glued(a, b) == Init(a) + continued;
    assert Init(Glued(a, b)) == Init(a) + Init(continued);
    ItemsAppend(Init(a), Init(continued));
  }

  /** However the output is cut into chunks, what is handled, in order, is what its complete lines say, and
      the tail is its unfinished last line. */
  lemma {:induction false} ChunkingDoesNotMatter(chunks: seq<string>)
    ensures After(chunks) == Whole(Joined(chunks))
  {
    if chunks != [] {
      ChunkingDoesNotMatter(chunks[..|chunks| - 1]);
      ConsumeExtends(Joined(chunks[..|chunks| - 1]), chunks[|chunks| - 1]);
    }
  }

  // ---------------------------------------------------------------- From what was written to what is handled

  /** Lines as a process writes them. */
  function Written(lines: seq<string>): string {
    if lines == [] then "" else lines[0] + [NEWLINE] + Written(lines[1..])
  }

  lemma {:induction false} WrittenSplits(lines: seq<string>, rest: string)
    requires NEWLINE !in rest && forall line | line in lines :: NEWLINE !in line
    ensures Split(Written(lines) + rest, NEWLINE) == lines + [rest]
  {
    if lines == [] {
      assert Written(lines) + rest == rest;
      SplitWithoutSeparator(rest, NEWLINE);
    } else {
      WrittenSplits(lines[1..], rest);
      assert Written(lines) + rest == lines[0] + [NEWLINE] + (Written(lines[1..]) + rest);
      SplitHead(lines[0], Written(lines[1..]) + rest, NEWLINE);
    }
  }

  /** Lines written in full are handled one by one and in order, and an unfinished one is kept, however the output is
      cut into chunks. */
  lemma WrittenLinesAreHandled(lines: seq<string>, rest: string, chunks: seq<string>)
    requires NEWLINE !in rest && forall line | line in lines :: NEWLINE !in line
    requires Joined(chunks) == Written(lines) + rest
    ensures After(chunks) == State(rest, Items(lines))
  {
    ChunkingDoesNotMatter(chunks);
    WrittenSplits(lines, rest);
    hide Split, Items, Joined, After;
    assert Init(lines + [rest]) == lines;
  }

  /** A line of blanks says nothing, and one with a text between blanks, which is no notice, logs the text. */
  lemma TextIsLogged(pad: string, text: string, tail: string)
    requires Blank(pad) && Blank(tail) && Tight(text)
    ensures text == "" ==> ItemsOf(pad + text + tail) == []
    ensures text != "" && !("@@RELIANT_STREAM" <= text) ==> ItemsOf(pad + text + tail) == [Log(text)]
  {
    TrimUnpads(pad, text, tail);
    hide Trim;
  }

  /** A line that begins with the marker announces the stream named after it, whatever blanks stand between. */
  lemma NoticeAnnounces(pad: string, gap: string, stream: string, tail: string)
    requires Blank(pad) && Blank(gap) && Blank(tail) && Tight(stream)
    ensures ItemsOf(pad + "@@RELIANT_STREAM" + gap + stream + tail) == [Notice(stream)]
  {
    var line := pad + "@@RELIANT_STREAM" + gap + stream + tail;
    if stream == "" {
      assert line == pad + "@@RELIANT_STREAM" + (gap + tail);
      TrimUnpads(pad, "@@RELIANT_STREAM", gap + tail);
      TrimNothing();
      hide Trim;
      assert "@@RELIANT_STREAM"[16..] == "";
    } else {
      var text := "@@RELIANT_STREAM" + gap + stream;
      assert line == pad + text + tail;
      TrimUnpads(pad, text, tail);
      assert text[16..] == gap + stream + "";
      TrimUnpads(gap, stream, "");
      hide Trim;
    }
  }
}
