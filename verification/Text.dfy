/** String helpers shared by the modules that read user-supplied text. */
module Text {

  /** The characters ECMAScript's trim removes. */
  predicate IsSpace(c: char) {
    var n := c as int;
    || 9 <= n <= 13 || n == 32 || n == 0xA0 || n == 0x1680 || 0x2000 <= n <= 0x200A
    || n == 0x2028 || n == 0x2029 || n == 0x202F || n == 0x205F || n == 0x3000 || n == 0xFEFF
  }

  function TrimStart(s: string): string {
    if s != "" && IsSpace(s[0]) then TrimStart(s[1..]) else s
  }

  function TrimEnd(s: string): string {
    if s != "" && IsSpace(s[|s| - 1]) then TrimEnd(s[..|s| - 1]) else s
  }

  function Trim(s: string): string {
    TrimEnd(TrimStart(s))
  }

  lemma TrimNothing()
    ensures Trim("") == ""
  {
  }

  predicate OccursAt(s: string, part: string, i: nat) {
    i + |part| <= |s| && s[i..i + |part|] == part
  }

  predicate Contains(s: string, part: string) {
    exists i | 0 <= i <= |s| :: OccursAt(s, part, i)
  }

  /** A part is contained exactly when it stands between some beginning and some end. */
  lemma ContainsBetween(s: string, part: string)
    ensures Contains(s, part) <==> exists a, b :: s == a + part + b
  {
    if Contains(s, part) {
      var i :| 0 <= i <= |s| && OccursAt(s, part, i);
      assert s == s[..i] + part + s[i + |part|..];
    }
    if exists a, b :: s == a + part + b {
      var a, b :| s == a + part + b;
      assert OccursAt(s, part, |a|);
    }
  }

  ghost predicate Blank(s: string) {
    forall i | 0 <= i < |s| :: IsSpace(s[i])
  }

  /** No space at either end. */
  predicate Tight(s: string) {
    s != "" ==> !IsSpace(s[0]) && !IsSpace(s[|s| - 1])
  }

  lemma {:induction false} TrimStartDrops(pad: string, s: string)
    requires Blank(pad)
    ensures TrimStart(pad + s) == TrimStart(s)
  {
    if pad == "" {
      assert pad + s == s;
    } else {
      assert (pad + s)[0] == pad[0] && (pad + s)[1..] == pad[1..] + s;
      TrimStartDrops(pad[1..], s);
    }
  }

  lemma {:induction false} TrimEndDrops(s: string, pad: string)
    requires Blank(pad)
    ensures TrimEnd(s + pad) == TrimEnd(s)
  {
    if pad == "" {
      assert s + pad == s;
    } else {
      var last := |pad| - 1;
      assert (s + pad)[|s + pad| - 1] == pad[last] && (s + pad)[..|s + pad| - 1] == s + pad[..last];
      TrimEndDrops(s, pad[..last]);
    }
  }

  /** Trimming takes the spaces off both ends and nothing else. */
  lemma TrimUnpads(pad: string, s: string, tail: string)
    requires Blank(pad) && Blank(tail) && Tight(s)
    ensures Trim(pad + s + tail) == s
  {
    assert pad + s + tail == pad + (s + tail);
    TrimStartDrops(pad, s + tail);
    if s == "" {
      assert s + tail == tail + "";
      TrimStartDrops(tail, "");
    } else {
      assert (s + tail)[0] == s[0];
      TrimEndDrops(s, tail);
    }
  }

  // ---------------------------------------------------------------- Splitting

  /** The pieces between the occurrences of `sep`: one more piece than there are separators. */
  function Split(s: string, sep: char): (pieces: seq<string>)
    ensures pieces != []
  {
    if s == "" then [""]
    else if s[0] == sep then [""] + Split(s[1..], sep)
    else Grown(s[0], Split(s[1..], sep))
  }

  /** `c` in front of the first piece. */
  function Grown(c: char, pieces: seq<string>): (r: seq<string>)
    requires pieces != []
  {
    [[c] + pieces[0]] + pieces[1..]
  }

  function Last(pieces: seq<string>): string
    requires pieces != []
  {
    pieces[|pieces| - 1]
  }

  function Init(pieces: seq<string>): seq<string>
    requires pieces != []
  {
    pieces[..|pieces| - 1]
  }

  /** The last piece of the one runs on into the first piece of the other. */
  function Glued(p: seq<string>, q: seq<string>): seq<string>
    requires p != [] && q != []
  {
    Init(p) + [Last(p) + q[0]] + q[1..]
  }

  lemma GluedAfterBreak(p: seq<string>, q: seq<string>)
    requires p != [] && q != []
    ensures Glued([""] + p, q) == [""] + Glued(p, q)
  {
    assert Init([""] + p) == [""] + Init(p);
  }

  lemma GluedGrown(c: char, p: seq<string>, q: seq<string>)
    requires p != [] && q != []
    ensures Glued(Grown(c, p), q) == Grown(c, Glued(p, q))
  {
    if |p| == 1 {
      assert [c] + p[0] + q[0] == [c] + (p[0] + q[0]);
      assert Glued(p, q)[1..] == q[1..];
    } else {
      assert Init(Grown(c, p)) == Grown(c, Init(p));
    }
  }

  lemma {:induction false} SplitGlues(a: string, b: string, sep: char)
    ensures Split(a + b, sep) == Glued(Split(a, sep), Split(b, sep))
  {
    if a == "" {
      assert a + b == b && "" + Split(b, sep)[0] == Split(b, sep)[0];
      assert Glued([""], Split(b, sep)) == Split(b, sep);
    } else {
      assert (a + b)[1..] == a[1..] + b;
      SplitGlues(a[1..], b, sep);
      GluedAfterBreak(Split(a[1..], sep), Split(b, sep));
      GluedGrown(a[0], Split(a[1..], sep), Split(b, sep));
    }
  }

  lemma {:induction false} SplitWithoutSeparator(s: string, sep: char)
    requires sep !in s
    ensures Split(s, sep) == [s]
  {
    if s != "" {
      SplitWithoutSeparator(s[1..], sep);
      assert s == [s[0]] + s[1..];
    }
  }

  /** A text without the separator, then the separator: the text is the first piece. */
  lemma SplitHead(s: string, rest: string, sep: char)
    requires sep !in s
    ensures Split(s + [sep] + rest, sep) == [s] + Split(rest, sep)
  {
    SplitWithoutSeparator(s, sep);
    SplitGlues(s, [sep] + rest, sep);
    assert s + [sep] + rest == s + ([sep] + rest);
    assert ([sep] + rest)[1..] == rest;
    assert s + "" == s;
  }
}
