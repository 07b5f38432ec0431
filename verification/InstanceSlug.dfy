/** Naming an instance's directory: three "<readable>-<hash>" segments, one per component of its key. */
module InstanceSlug {
  import opened Text

  const SLUG_HUMAN_MAX := 32
  const SLUG_HASH_LEN := 8
  const DEFAULT_SUB_SEGMENT := "_default"

  // ---------------------------------------------------------------- The readable half

  predicate IsReadable(c: char) {
    'a' <= c <= 'z' || '0' <= c <= '9' || c == '.' || c == '_' || c == '-'
  }

  predicate IsEdge(c: char) {
    c == '-' || c == '.'
  }

  /** The loop of the sanitizer from a state on: what it has written, and whether a dash is owed. Every
      character it writes is one byte. */
  function Scan(s: string, out: string, pending: bool): string {
    if s == "" then out
    else if IsReadable(s[0]) then
      var next := out + (if pending && out != "" then "-" else "") + [s[0]];
      if |next| >= SLUG_HUMAN_MAX then next else Scan(s[1..], next, false)
    else if |out| >= SLUG_HUMAN_MAX then out
    else Scan(s[1..], out, out != "")
  }

  function TrimEdgeStart(s: string): string {
    if s != "" && IsEdge(s[0]) then TrimEdgeStart(s[1..]) else s
  }

  function TrimEdgeEnd(s: string): string {
    if s != "" && IsEdge(s[|s| - 1]) then TrimEdgeEnd(s[..|s| - 1]) else s
  }

  function TrimEdges(s: string): string {
    TrimEdgeEnd(TrimEdgeStart(s))
  }

  /** The sanitizer on text that is already trimmed and lower-cased. */
  function Sanitized(lowered: string): string {
    var trimmed := TrimEdges(Scan(lowered, "", false));
    if trimmed == "" then "x" else trimmed
  }

  lemma TrimStartStep(s: string, i: nat)
    requires i <= |s|
    ensures TrimEdgeStart(s[i..]) == if i < |s| && IsEdge(s[i]) then TrimEdgeStart(s[i + 1..]) else s[i..]
  {
    if i < |s| {
      assert s[i..][1..] == s[i + 1..];
    }
  }

  lemma TrimEndStep(s: string, i: nat, j: nat)
    requires i <= j <= |s|
    ensures TrimEdgeEnd(s[i..j]) == if i < j && IsEdge(s[j - 1]) then TrimEdgeEnd(s[i..j - 1]) else s[i..j]
  {
    if i < j {
      assert s[i..j][..j - i - 1] == s[i..j - 1];
    }
  }

  method TrimCutset(value: string) returns (r: string)
    ensures r == TrimEdges(value)
  {
    hide TrimEdgeStart, TrimEdgeEnd;
    var start, end := 0, |value|;
    assert value[0..] == value;
    while start < end && IsEdge(value[start])
      invariant 0 <= start <= end == |value|
      invariant TrimEdgeStart(value) == TrimEdgeStart(value[start..])
    {
      TrimStartStep(value, start);
      start := start + 1;
    }
    TrimStartStep(value, start);
    assert value[start..] == value[start..end];
    while end > start && IsEdge(value[end - 1])
      invariant start <= end <= |value|
      invariant TrimEdges(value) == TrimEdgeEnd(value[start..end])
    {
      TrimEndStep(value, start, end);
      end := end - 1;
    }
    TrimEndStep(value, start, end);
    r := value[start..end];
  }

  method Sanitize(lowered: string) returns (r: string)
    ensures r == Sanitized(lowered)
  {
    var out, pending, i, stopped := "", false, 0, false;
    while i < |lowered| && !stopped
      invariant 0 <= i <= |lowered|
      invariant stopped ==> Scan(lowered, "", false) == out
      invariant !stopped ==> Scan(lowered, "", false) == Scan(lowered[i..], out, pending)
    {
      var ch := lowered[i];
      assert lowered[i..][1..] == lowered[i + 1..];
      assert out + "" + [ch] == out + [ch];
      if IsReadable(ch) {
        if pending && |out| > 0 {
          out := out + "-";
        }
        pending := false;
        out := out + [ch];
      } else {
        pending := |out| > 0;
      }
      if |out| >= SLUG_HUMAN_MAX {
        stopped := true;
      }
      i := i + 1;
    }
    var trimmed := TrimCutset(out);
    r := if trimmed == "" then "x" else trimmed;
  }

  ghost predicate AllReadable(s: string) {
    forall i | 0 <= i < |s| :: IsReadable(s[i])
  }

  lemma {:induction false} ScanIsReadableAndShort(s: string, out: string, pending: bool)
    requires AllReadable(out) && |out| < SLUG_HUMAN_MAX
    ensures AllReadable(Scan(s, out, pending)) && |Scan(s, out, pending)| <= SLUG_HUMAN_MAX + 1
  {
    if s != "" && IsReadable(s[0]) {
      var next := out + (if pending && out != "" then "-" else "") + [s[0]];
      if |next| < SLUG_HUMAN_MAX {
        ScanIsReadableAndShort(s[1..], next, false);
      }
    } else if s != "" {
      ScanIsReadableAndShort(s[1..], out, out != "");
    }
  }

  lemma {:induction false} TrimStartIsReadable(s: string)
    requires AllReadable(s)
    ensures AllReadable(TrimEdgeStart(s)) && |TrimEdgeStart(s)| <= |s|
    ensures TrimEdgeStart(s) != "" ==> !IsEdge(TrimEdgeStart(s)[0])
  {
    if s != "" && IsEdge(s[0]) {
      TrimStartIsReadable(s[1..]);
    }
  }

  lemma {:induction false} TrimEndIsReadable(s: string)
    requires AllReadable(s)
    ensures AllReadable(TrimEdgeEnd(s)) && TrimEdgeEnd(s) <= s
    ensures TrimEdgeEnd(s) != "" ==> !IsEdge(TrimEdgeEnd(s)[|TrimEdgeEnd(s)| - 1])
  {
    if s != "" && IsEdge(s[|s| - 1]) {
      TrimEndIsReadable(s[..|s| - 1]);
    }
  }

  lemma TrimmedIsReadable(s: string)
    requires AllReadable(s)
    ensures AllReadable(TrimEdges(s)) && |TrimEdges(s)| <= |s|
    ensures TrimEdges(s) != "" ==> !IsEdge(TrimEdges(s)[0]) && !IsEdge(TrimEdges(s)[|TrimEdges(s)| - 1])
  {
    TrimStartIsReadable(s);
    TrimEndIsReadable(TrimEdgeStart(s));
  }

  lemma SlashIsNotReadable(s: string)
    requires AllReadable(s)
    ensures '/' !in s
  {
  }

  /** The readable half is never empty, has only safe characters, no dash or dot at either end, and at most
      33 characters. */
  lemma SanitizedIsSafe(lowered: string)
    ensures var r := Sanitized(lowered);
            && 1 <= |r| <= SLUG_HUMAN_MAX + 1
            && AllReadable(r)
            && !IsEdge(r[0]) && !IsEdge(r[|r| - 1])
            && '/' !in r
  {
    hide TrimEdges, Scan;
    ScanIsReadableAndShort(lowered, "", false);
    TrimmedIsReadable(Scan(lowered, "", false));
    SlashIsNotReadable(Sanitized(lowered));
  }

  lemma {:induction false} ScanCopies(s: string, rest: string, out: string)
    requires AllReadable(s) && |out| + |s| < SLUG_HUMAN_MAX
    ensures Scan(s + rest, out, false) == Scan(rest, out + s, false)
  {
    if s == "" {
      assert s + rest == rest && out + s == out;
    } else {
      assert (s + rest)[0] == s[0] && (s + rest)[1..] == s[1..] + rest;
      ScanCopies(s[1..], rest, out + [s[0]]);
      assert out + [s[0]] + s[1..] == out + s;
      assert out + "" + [s[0]] == out + [s[0]];
    }
  }

  lemma TrimEdgesKeeps(s: string)
    requires s != "" && !IsEdge(s[0]) && !IsEdge(s[|s| - 1])
    ensures TrimEdges(s) == s
  {
  }

  /** The documented cap is 32, but a dash owed at 31 goes out together with the next character: 31 readable
      characters, one other and one more give 33. */
  lemma CapIsPassedByOne(head: string, gap: char, c: char, rest: string)
    requires |head| == SLUG_HUMAN_MAX - 1 && AllReadable(head) && !IsEdge(head[0])
    requires !IsReadable(gap) && IsReadable(c) && !IsEdge(c)
    ensures Sanitized(head + [gap] + [c] + rest) == head + "-" + [c]
    ensures |Sanitized(head + [gap] + [c] + rest)| == SLUG_HUMAN_MAX + 1
  {
    var s, tail := head + [gap] + [c] + rest, [gap] + [c] + rest;
    assert s == head + tail && tail[1..] == [c] + rest && ([c] + rest)[0] == c;
    ScanCopies(head, tail, "");
    assert "" + head == head;
    assert Scan(tail, head, false) == Scan([c] + rest, head, true);
    TrimEdgesKeeps(head + "-" + [c]);
  }

  /** Readable text that fits and has no edge characters is its own readable half. */
  lemma ReadableTextIsKept(s: string)
    requires AllReadable(s) && 0 < |s| < SLUG_HUMAN_MAX && !IsEdge(s[0]) && !IsEdge(s[|s| - 1])
    ensures Sanitized(s) == s
  {
    ScanCopies(s, "", "");
    assert s + "" == s && "" + s == s;
    TrimEdgesKeeps(s);
  }

  // What the loop computes, without its cap and its flag.

  function SkipUnreadable(s: string): string {
    if s != "" && !IsReadable(s[0]) then SkipUnreadable(s[1..]) else s
  }

  /** Readable characters are kept, every run of others between two of them is one dash, and runs at the
      ends are dropped. */
  function Collapsed(s: string): string
    decreases |s|
  {
    if s == "" then ""
    else if IsReadable(s[0]) then [s[0]] + Collapsed(s[1..])
    else
      SkipShortens(s);
      if SkipUnreadable(s) == "" then "" else "-" + Collapsed(SkipUnreadable(s))
  }

  lemma {:induction false} SkipShortens(s: string)
    ensures |SkipUnreadable(s)| <= |s|
    ensures s != "" && !IsReadable(s[0]) ==> |SkipUnreadable(s)| < |s|
  {
    if s != "" && !IsReadable(s[0]) {
      SkipShortens(s[1..]);
    }
  }

  /** What is still to come, given what is written and whether a dash is owed. */
  function Remaining(s: string, started: bool, pending: bool): string {
    if !started then Collapsed(SkipUnreadable(s))
    else if pending && SkipUnreadable(s) != "" then "-" + Collapsed(SkipUnreadable(s))
    else if pending then ""
    else Collapsed(s)
  }

  ghost predicate CappedAs(capped: string, full: string) {
    capped <= full && (|capped| < SLUG_HUMAN_MAX ==> capped == full)
  }

  lemma SkipTwice(s: string)
    requires s != "" && !IsReadable(s[0])
    ensures SkipUnreadable(s) == SkipUnreadable(s[1..])
  {
  }

  lemma {:induction false} ScanIsCappedCollapse(s: string, out: string, pending: bool)
    requires |out| < SLUG_HUMAN_MAX && (pending ==> out != "")
    ensures CappedAs(Scan(s, out, pending), out + Remaining(s, out != "", pending))
  {
    if s == "" {
      assert out + "" == out;
    } else if IsReadable(s[0]) {
      var next := out + (if pending && out != "" then "-" else "") + [s[0]];
      assert out + Remaining(s, out != "", pending) == next + Collapsed(s[1..]);
      if |next| < SLUG_HUMAN_MAX {
        ScanIsCappedCollapse(s[1..], next, false);
      }
    } else {
      SkipTwice(s);
      ScanIsCappedCollapse(s[1..], out, out != "");
      assert Remaining(s, out != "", pending) == Remaining(s[1..], out != "", out != "");
    }
  }

  /** The readable half is a trimmed prefix of the collapsed text, and all of it unless the cap is reached. */
  lemma SanitizedIsCappedCollapse(lowered: string)
    ensures CappedAs(Scan(lowered, "", false), Collapsed(SkipUnreadable(lowered)))
  {
    ScanIsCappedCollapse(lowered, "", false);
    assert "" + Collapsed(SkipUnreadable(lowered)) == Collapsed(SkipUnreadable(lowered));
  }

  // When the cap is passed.

  /** The text a string would be reduced to if there were no cap. */
  function Kept(s: string): string {
    Collapsed(SkipUnreadable(s))
  }

  function Pending(s: string, out: string, pending: bool): bool {
    if s == "" then pending else !IsReadable(s[|s| - 1]) && out != ""
  }

  /** The scan of a prefix, if it stays below the cap, is where the scan of the whole goes on from; otherwise it is
      the scan of the whole. */
  lemma {:induction false} ScanSplit(a: string, rest: string, out: string, pending: bool)
    requires |out| < SLUG_HUMAN_MAX && (pending ==> out != "")
    ensures var mid := Scan(a, out, pending);
            Scan(a + rest, out, pending)
            == if |mid| < SLUG_HUMAN_MAX then Scan(rest, mid, Pending(a, mid, pending)) else mid
  {
    if a == "" {
      assert a + rest == rest;
    } else {
      assert (a + rest)[0] == a[0] && (a + rest)[1..] == a[1..] + rest;
      if IsReadable(a[0]) {
        var next := out + (if pending && out != "" then "-" else "") + [a[0]];
        if |next| < SLUG_HUMAN_MAX {
          ScanSplit(a[1..], rest, next, false);
        }
      } else {
        ScanSplit(a[1..], rest, out, out != "");
        if |a| == 1 {
          assert a[1..] == "";
        }
      }
    }
  }

  ghost predicate NoneReadable(g: string) {
    forall i | 0 <= i < |g| :: !IsReadable(g[i])
  }

  lemma {:induction false} ScanSkipsGap(g: string, out: string, pending: bool)
    requires NoneReadable(g) && |out| < SLUG_HUMAN_MAX
    ensures Scan(g, out, pending) == out
  {
    if g != "" {
      ScanSkipsGap(g[1..], out, out != "");
    }
  }

  lemma ScanIsKept(s: string)
    ensures |Scan(s, "", false)| < SLUG_HUMAN_MAX || |Kept(s)| < SLUG_HUMAN_MAX ==> Scan(s, "", false) == Kept(s)
  {
    SanitizedIsCappedCollapse(s);
  }

  /** The character at `i` goes out together with the dash owed for the run from `m` on, after 31 characters. */
  ghost predicate PassesCap(s: string, m: nat, i: nat) {
    && 0 < m < i < |s|
    && IsReadable(s[m - 1]) && NoneReadable(s[m..i])
    && IsReadable(s[i]) && !IsEdge(s[i])
    && |Kept(s[..m])| == SLUG_HUMAN_MAX - 1 && !IsEdge(Kept(s[..m])[0])
  }

  lemma LastOfGap(s: string, m: nat, i: nat)
    requires m < i <= |s| && NoneReadable(s[m..i])
    ensures !IsReadable(s[i - 1])
  {
    assert s[m..i][i - 1 - m] == s[i - 1];
  }

  lemma ScanAtDash(s: string, m: nat, i: nat)
    requires 0 < m < i < |s| && NoneReadable(s[m..i]) && |Scan(s[..m], "", false)| < SLUG_HUMAN_MAX
    ensures Scan(s[..i], "", false) == Scan(s[..m], "", false)
  {
    var out := Scan(s[..m], "", false);
    ScanSplit(s[..m], s[m..i], "", false);
    assert s[..m] + s[m..i] == s[..i];
    ScanSkipsGap(s[m..i], out, Pending(s[..m], out, false));
  }

  lemma PassedCapIsLong(s: string, m: nat, i: nat)
    requires PassesCap(s, m, i)
    ensures |Sanitized(s)| == SLUG_HUMAN_MAX + 1
  {
    hide Collapsed, SkipUnreadable;
    var out := Kept(s[..m]);
    ScanIsKept(s[..m]);
    ScanAtDash(s, m, i);
    LastOfGap(s, m, i);
    assert s[..i] + s[i..] == s && s[..i] != "";
    ScanSplit(s[..i], s[i..], "", false);
    assert Pending(s[..i], out, false) && s[i..][0] == s[i];
    assert Scan(s, "", false) == out + "-" + [s[i]];
    TrimEdgesKeeps(out + "-" + [s[i]]);
  }

  /** Where the scan stops: the first character that brings it to the cap. */
  lemma {:induction false} FirstAtCap(s: string) returns (i: nat)
    requires |Scan(s, "", false)| >= SLUG_HUMAN_MAX
    ensures i < |s| && |Scan(s[..i], "", false)| < SLUG_HUMAN_MAX
    ensures Scan(s[..i + 1], "", false) == Scan(s, "", false)
    decreases |s|
  {
    var init := s[..|s| - 1];
    if |Scan(init, "", false)| < SLUG_HUMAN_MAX {
      i := |s| - 1;
      assert s[..i + 1] == s;
    } else {
      i := FirstAtCap(init);
      assert init[..i] == s[..i] && init[..i + 1] == s[..i + 1];
      assert init + s[|s| - 1..] == s;
      ScanSplit(init, s[|s| - 1..], "", false);
    }
  }

  /** The end of the run of others before `i`. */
  lemma {:induction false} GapBefore(s: string, i: nat) returns (m: nat)
    requires i <= |s|
    ensures m <= i && NoneReadable(s[m..i]) && (m > 0 ==> IsReadable(s[m - 1]))
    ensures i > 0 && !IsReadable(s[i - 1]) ==> m < i
  {
    if i == 0 || IsReadable(s[i - 1]) {
      m := i;
    } else {
      m := GapBefore(s, i - 1);
      assert s[m..i] == s[m..i - 1] + [s[i - 1]];
    }
  }

  lemma EdgeIsTrimmed(t: string)
    requires t != "" && AllReadable(t)
    ensures IsEdge(t[0]) ==> |TrimEdgeStart(t)| < |t|
    ensures IsEdge(t[|t| - 1]) ==> |TrimEdgeEnd(t)| < |t|
    ensures !IsEdge(t[0]) ==> TrimEdgeStart(t) == t
  {
    TrimStartIsReadable(t[1..]);
    TrimEndIsReadable(t[..|t| - 1]);
  }

  lemma UntrimmedHasNoEdges(t: string)
    requires t != "" && |TrimEdges(t)| == |t| && AllReadable(t)
    ensures !IsEdge(t[0]) && !IsEdge(t[|t| - 1])
  {
    TrimStartIsReadable(t);
    TrimEndIsReadable(TrimEdgeStart(t));
    EdgeIsTrimmed(t);
  }

  lemma LongPassedCap(s: string) returns (m: nat, i: nat)
    requires |Sanitized(s)| == SLUG_HUMAN_MAX + 1
    ensures PassesCap(s, m, i)
  {
    hide Collapsed, SkipUnreadable;
    var all := Scan(s, "", false);
    ScanIsReadableAndShort(s, "", false);
    TrimmedIsReadable(all);
    UntrimmedHasNoEdges(all);
    i := FirstAtCap(s);
    var out := Scan(s[..i], "", false);
    assert s[..i + 1] == s[..i] + [s[i]];
    ScanSplit(s[..i], [s[i]], "", false);
    var pending := Pending(s[..i], out, false);
    assert all == Scan([s[i]], out, pending);
    assert IsReadable(s[i]) && pending && |out| == SLUG_HUMAN_MAX - 1 && all == out + "-" + [s[i]];
    m := GapBefore(s, i);
    CapGapIsAfterText(s, m, i);
  }

  lemma CapGapIsAfterText(s: string, m: nat, i: nat)
    requires m < i < |s| && NoneReadable(s[m..i]) && |Scan(s[..i], "", false)| == SLUG_HUMAN_MAX - 1
    ensures 0 < m && Kept(s[..m]) == Scan(s[..i], "", false)
  {
    hide Collapsed, SkipUnreadable;
    if m == 0 {
      assert s[m..i] == s[..i];
      ScanSkipsGap(s[..i], "", false);
    }
    ScanSplit(s[..m], s[m..i], "", false);
    assert s[..m] + s[m..i] == s[..i];
    ScanAtDash(s, m, i);
    ScanIsKept(s[..m]);
  }

  /** The documented cap is 32. The readable half has 33 characters exactly when the text without a cap would have 31
      of them, the first no edge, then a run of others, then a readable character that is no edge: the dash owed for
      the run and that character go out together. */
  lemma CapIsPassedExactly(s: string)
    ensures |Sanitized(s)| == SLUG_HUMAN_MAX + 1 <==> exists m: nat, i: nat :: PassesCap(s, m, i)
  {
    hide Sanitized, PassesCap;
    if |Sanitized(s)| == SLUG_HUMAN_MAX + 1 {
      var m, i := LongPassedCap(s);
    }
    if exists m: nat, i: nat :: PassesCap(s, m, i) {
      var m: nat, i: nat :| PassesCap(s, m, i);
      PassedCapIsLong(s, m, i);
    }
  }

  // ---------------------------------------------------------------- The slug

  /** The platform's part: case folding, SHA-256 in hexadecimal, and the path functions. */
  datatype Platform = Platform(
    lower: string -> string, sha256: string -> string, isAbsolute: string -> bool, basename: string -> string,
    separator: char)

  /** SHA-256 of anything is 64 hexadecimal digits. */
  ghost predicate HexDigest(p: Platform) {
    forall s :: |p.sha256(s)| == 64 && '/' !in p.sha256(s)
  }

  datatype InstanceKey = InstanceKey(origin: string, sub: string, workspace: string)

  function HashOf(p: Platform, canonical: string): string
    requires HexDigest(p)
  {
    p.sha256(canonical)[..SLUG_HASH_LEN]
  }

  function SlugSegment(p: Platform, human: string, canonical: string): string
    requires HexDigest(p)
  {
    Sanitized(p.lower(Trim(human))) + "-" + HashOf(p, canonical)
  }

  predicate LooksLikePath(p: Platform, workspace: string) {
    workspace != ""
    && (p.isAbsolute(workspace) || workspace[0] == '.' || workspace[0] == '~'
        || '/' in workspace || p.separator in workspace)
  }

  function WorkspaceHuman(p: Platform, workspace: string): string {
    if !LooksLikePath(p, workspace) then workspace else
    var base := p.basename(workspace);
    if base == [p.separator] || base == "/" || base == "." || base == ".." || base == "" then "root" else base
  }

  function OriginSegment(p: Platform, key: InstanceKey): string
    requires HexDigest(p)
  {
    SlugSegment(p, key.origin, key.origin)
  }

  function SubSegment(p: Platform, key: InstanceKey): string
    requires HexDigest(p)
  {
    if key.sub != "" then SlugSegment(p, key.sub, key.sub) else DEFAULT_SUB_SEGMENT
  }

  function WorkspaceSegment(p: Platform, key: InstanceKey): string
    requires HexDigest(p)
  {
    SlugSegment(p, WorkspaceHuman(p, key.workspace), key.workspace)
  }

  function Slug(p: Platform, key: InstanceKey): string
    requires HexDigest(p)
  {
    OriginSegment(p, key) + "/" + SubSegment(p, key) + "/" + WorkspaceSegment(p, key)
  }

  lemma SegmentShape(p: Platform, human: string, canonical: string)
    requires HexDigest(p)
    ensures var s := SlugSegment(p, human, canonical);
            && '/' !in s
            && SLUG_HASH_LEN + 2 <= |s| <= SLUG_HUMAN_MAX + 2 + SLUG_HASH_LEN
            && s[|s| - SLUG_HASH_LEN..] == HashOf(p, canonical)
  {
    hide Sanitized;
    SanitizedIsSafe(p.lower(Trim(human)));
    var s := SlugSegment(p, human, canonical);
    assert forall i | 0 <= i < SLUG_HASH_LEN :: HashOf(p, canonical)[i] in p.sha256(canonical);
  }

  /** Always three segments, none empty and none with a separator in it. */
  lemma SlugHasThreeSegments(p: Platform, key: InstanceKey)
    requires HexDigest(p)
    ensures Split(Slug(p, key), '/') == [OriginSegment(p, key), SubSegment(p, key), WorkspaceSegment(p, key)]
    ensures OriginSegment(p, key) != "" && SubSegment(p, key) != "" && WorkspaceSegment(p, key) != ""
  {
    hide SlugSegment, WorkspaceHuman;
    SegmentShape(p, key.origin, key.origin);
    SegmentShape(p, key.sub, key.sub);
    SegmentShape(p, WorkspaceHuman(p, key.workspace), key.workspace);
    var o, u, w := OriginSegment(p, key), SubSegment(p, key), WorkspaceSegment(p, key);
    SplitHead(o, u + "/" + w, '/');
    SplitHead(u, w, '/');
    SplitWithoutSeparator(w, '/');
    assert Slug(p, key) == o + ['/'] + (u + "/" + w);
    assert u + "/" + w == u + ['/'] + w;
  }

  /** The hash prefix tells two canonical values apart. */
  ghost predicate TellsApart(p: Platform, a: string, b: string)
    requires HexDigest(p)
  {
    HashOf(p, a) == HashOf(p, b) ==> a == b
  }

  /** Two instances share a directory only if they are the same instance, as long as the hash prefix tells
      their components apart; a signed-out instance shares none with a signed-in one in any case. */
  lemma SlugIsInjective(p: Platform, a: InstanceKey, b: InstanceKey)
    requires HexDigest(p) && Slug(p, a) == Slug(p, b)
    ensures TellsApart(p, a.origin, b.origin) ==> a.origin == b.origin
    ensures TellsApart(p, a.workspace, b.workspace) ==> a.workspace == b.workspace
    ensures a.sub == "" <==> b.sub == ""
    ensures TellsApart(p, a.sub, b.sub) ==> a.sub == b.sub
  {
    hide SlugSegment, WorkspaceHuman, Split;
    SlugHasThreeSegments(p, a);
    SlugHasThreeSegments(p, b);
    var pa, pb := Split(Slug(p, a), '/'), Split(Slug(p, b), '/');
    assert pa[0] == pb[0] && pa[1] == pb[1] && pa[2] == pb[2];
    SegmentShape(p, a.origin, a.origin);
    SegmentShape(p, b.origin, b.origin);
    SegmentShape(p, a.sub, a.sub);
    SegmentShape(p, b.sub, b.sub);
    SegmentShape(p, WorkspaceHuman(p, a.workspace), a.workspace);
    SegmentShape(p, WorkspaceHuman(p, b.workspace), b.workspace);
  }

  // ---------------------------------------------------------------- What a slug reads

  /** What is kept of a text, by code point: small letters, digits, the dash, the dot and the underscore. */
  lemma ReadableCharacters(c: char)
    ensures var n := c as int;
            IsReadable(c) <==> 97 <= n <= 122 || 48 <= n <= 57 || n == 45 || n == 46 || n == 95
  {
  }

  /** A workspace that is written like a path goes by its last component, one that has none by "root", and any other
      by its name. */
  ghost predicate GoesBy(p: Platform, workspace: string, name: string) {
    var isPath := workspace != "" && (p.isAbsolute(workspace) || workspace[0] == '.' || workspace[0] == '~'
                                      || '/' in workspace || p.separator in workspace);
    var last := p.basename(workspace);
    var isRoot := last == "" || last == "." || last == ".." || last == "/" || (|last| == 1 && last[0] == p.separator);
    && (!isPath ==> name == workspace)
    && (isPath && isRoot ==> name == "root")
    && (isPath && !isRoot ==> name == last)
  }

  lemma WorkspaceGoesBy(p: Platform, workspace: string)
    ensures GoesBy(p, workspace, WorkspaceHuman(p, workspace))
  {
  }

  /** Each segment of a slug is the readable half of its component, a dash and the first eight digits of its hash; a
      signed-out instance has "_default" for the second. */
  lemma SlugReads(p: Platform, key: InstanceKey) returns (name: string)
    requires HexDigest(p)
    ensures GoesBy(p, key.workspace, name)
    ensures Split(Slug(p, key), '/')
            == [Sanitized(p.lower(Trim(key.origin))) + "-" + p.sha256(key.origin)[..8],
                if key.sub == "" then "_default"
                else Sanitized(p.lower(Trim(key.sub))) + "-" + p.sha256(key.sub)[..8],
                Sanitized(p.lower(Trim(name))) + "-" + p.sha256(key.workspace)[..8]]
  {
    hide Split, Sanitized, Trim, GoesBy;
    name := WorkspaceHuman(p, key.workspace);
    WorkspaceGoesBy(p, key.workspace);
    hide WorkspaceHuman;
    SlugHasThreeSegments(p, key);
  }
}
