/** A download in ranged chunks: which bytes each request asks for, and the file the replies are written into. */
module ChunkedDownload {
  import opened Wrappers

  newtype Byte = b: int | 0 <= b < 256

  const CHUNK_SIZE := 10 * 1024 * 1024
  const MAX_CHUNK_RETRIES := 3

  function NumChunks(totalSize: nat): nat {
    (totalSize + CHUNK_SIZE - 1) / CHUNK_SIZE
  }

  function Start(i: nat): nat {
    i * CHUNK_SIZE
  }

  /** The last byte asked for: both ends of a byte range are inclusive (section 14.1.2 of RFC 9110). */
  function End(i: nat, totalSize: nat): int {
    if Start(i) + CHUNK_SIZE - 1 < totalSize - 1 then Start(i) + CHUNK_SIZE - 1 else totalSize - 1
  }

  // ---------------------------------------------------------------- The ranges

  /** The ranges are non-empty, follow on from one another, and run from the first byte to the last. */
  lemma RangesFollowOn(totalSize: nat, i: nat)
    requires totalSize > 0 && i < NumChunks(totalSize)
    ensures 0 <= Start(i) <= End(i, totalSize) < totalSize
    ensures End(i, totalSize) - Start(i) + 1 <= 10485760
    ensures i + 1 < NumChunks(totalSize) ==>
              End(i, totalSize) + 1 == Start(i + 1) && End(i, totalSize) - Start(i) + 1 == 10485760
    ensures i + 1 == NumChunks(totalSize) ==> End(i, totalSize) == totalSize - 1
  {
  }

  /** Every byte of the file is asked for by exactly one request. */
  lemma RangesTile(totalSize: nat, p: nat, i: nat)
    requires p < totalSize
    ensures p / CHUNK_SIZE < NumChunks(totalSize)
    ensures i < NumChunks(totalSize) ==> (Start(i) <= p <= End(i, totalSize) <==> i == p / CHUNK_SIZE)
  {
  }

  // ---------------------------------------------------------------- The file

  /** A write at an offset: a gap before it reads as zeros, and an empty write changes nothing. */
  function WriteAt(file: seq<Byte>, data: seq<Byte>, offset: nat): seq<Byte> {
    if data == [] then file else
    var padded := if |file| < offset then file + seq(offset - |file|, _ => 0) else file;
    padded[..offset] + data + if offset + |data| < |padded| then padded[offset + |data|..] else []
  }

  lemma WriteReaches(file: seq<Byte>, data: seq<Byte>, offset: nat)
    ensures var end := offset + |data|;
            |WriteAt(file, data, offset)| == if data == [] || end <= |file| then |file| else end
    ensures |file| == offset ==> WriteAt(file, data, offset) == file + data
  {
  }

  function Assembled(bodies: seq<seq<Byte>>): seq<Byte> {
    if bodies == [] then [] else
    var last := |bodies| - 1;
    WriteAt(Assembled(bodies[..last]), bodies[last], Start(last))
  }

  function Transferred(bodies: seq<seq<Byte>>): nat {
    if bodies == [] then 0 else Transferred(bodies[..|bodies| - 1]) + |bodies[|bodies| - 1]|
  }

  /** What the progress callback is told after each chunk. */
  function Progress(bodies: seq<seq<Byte>>): seq<int> {
    seq(|bodies|, i requires 0 <= i < |bodies| => Transferred(bodies[..i + 1]))
  }

  // ---------------------------------------------------------------- The replies

  datatype Reply = Response(status: int, body: seq<Byte>) | Broken

  predicate Accepts(r: Reply) {
    r.Response? && (r.status == 206 || r.status == 200)
  }

  /** The outside world: the reply to each attempt at each chunk, whether the output can be opened, and whether each
      write to it succeeds. */
  datatype World = World(reply: (nat, nat) -> Reply, opens: bool, writes: nat -> bool)

  /** The body of the first acceptable reply from an attempt on. */
  function Fetched(w: World, chunk: nat, attempt: nat): Option<seq<Byte>>
    requires attempt <= MAX_CHUNK_RETRIES
    decreases MAX_CHUNK_RETRIES - attempt
  {
    if attempt == MAX_CHUNK_RETRIES then None
    else if Accepts(w.reply(chunk, attempt)) then Some(w.reply(chunk, attempt).body)
    else Fetched(w, chunk, attempt + 1)
  }

  /** The bodies of the first n chunks, if each could be fetched and written. */
  function Bodies(w: World, n: nat): Option<seq<seq<Byte>>> {
    if n == 0 then Some([]) else
    match (Bodies(w, n - 1), Fetched(w, n - 1, 0))
    case (Some(before), Some(body)) => if w.writes(n - 1) then Some(before + [body]) else None
    case _ => None
  }

  lemma {:induction false} BodiesGrow(w: World, n: nat, m: nat)
    requires n <= m && Bodies(w, m).Some?
    ensures Bodies(w, n).Some? && |Bodies(w, n).value| == n
    ensures |Bodies(w, m).value| == m && Bodies(w, n).value == Bodies(w, m).value[..n]
    ensures forall i | 0 <= i < m :: Fetched(w, i, 0) == Some(Bodies(w, m).value[i])
    decreases m
  {
    if m > 0 {
      BodiesGrow(w, if n < m then n else n - 1, m - 1);
    }
  }

  lemma {:induction false} FetchedIsFirstAccepted(w: World, chunk: nat, attempt: nat)
    requires attempt <= MAX_CHUNK_RETRIES
    ensures Fetched(w, chunk, attempt).Some?
            <==> exists a :: attempt <= a < MAX_CHUNK_RETRIES && Accepts(w.reply(chunk, a))
    decreases MAX_CHUNK_RETRIES - attempt
  {
    if attempt < MAX_CHUNK_RETRIES {
      FetchedIsFirstAccepted(w, chunk, attempt + 1);
    }
  }

  predicate IsGood(r: Reply) {
    r.Response? && r.status in {200, 206}
  }

  predicate Obtainable(w: World, chunk: nat) {
    w.writes(chunk) && (IsGood(w.reply(chunk, 0)) || IsGood(w.reply(chunk, 1)) || IsGood(w.reply(chunk, 2)))
  }

  lemma GoodIsAccepted(w: World, chunk: nat)
    ensures (exists a :: 0 <= a < MAX_CHUNK_RETRIES && Accepts(w.reply(chunk, a)))
            <==> IsGood(w.reply(chunk, 0)) || IsGood(w.reply(chunk, 1)) || IsGood(w.reply(chunk, 2))
  {
    assert forall a: nat :: Accepts(w.reply(chunk, a)) <==> IsGood(w.reply(chunk, a));
  }

  /** All n chunks are there exactly when each had an acceptable reply among its three attempts, and its write. */
  lemma {:induction false} AllChunksIffEachObtainable(w: World, n: nat)
    ensures Bodies(w, n).Some? <==> forall i | 0 <= i < n :: Obtainable(w, i)
  {
    if n > 0 {
      AllChunksIffEachObtainable(w, n - 1);
      FetchedIsFirstAccepted(w, n - 1, 0);
      GoodIsAccepted(w, n - 1);
      assert Obtainable(w, n - 1) <==> w.writes(n - 1) && Fetched(w, n - 1, 0).Some?;
      hide Fetched, Obtainable;
    }
  }

  datatype Outcome = Downloaded(size: nat) | Failed

  // ---------------------------------------------------------------- The downloader

  class Downloader {
    /** What is at the output path. */
    var file: Option<seq<Byte>>

    constructor (file: Option<seq<Byte>>)
      ensures this.file == file
    {
      this.file := file;
    }

    method DownloadChunk(w: World, chunk: nat) returns (body: Option<seq<Byte>>)
      ensures body == Fetched(w, chunk, 0)
    {
      var attempt := 0;
      while attempt < MAX_CHUNK_RETRIES
        invariant attempt <= MAX_CHUNK_RETRIES
        invariant Fetched(w, chunk, 0) == Fetched(w, chunk, attempt)
      {
        var reply := w.reply(chunk, attempt);
        if reply.Response? && (reply.status == 206 || reply.status == 200) {
          return Some(reply.body);
        }
        attempt := attempt + 1;
      }
      return None;
    }

    /** The chunk loop; `progress` is what the callback was told. */
    method FetchChunks(w: World, numChunks: nat) returns (complete: bool, progress: seq<int>)
      requires file == Some([])
      modifies this
      ensures complete <==> Bodies(w, numChunks).Some?
      ensures complete ==> file == Some(Assembled(Bodies(w, numChunks).value))
                           && progress == Progress(Bodies(w, numChunks).value)
    {
      ghost var bodies: seq<seq<Byte>> := [];
      NothingYet(w);
      hide Assembled, Transferred, Progress, WriteAt, Fetched, Bodies, Start;
      progress := [];
      var downloadedBytes := 0;
      var i := 0;
      while i < numChunks
        invariant i == |bodies| <= numChunks
        invariant Bodies(w, i) == Some(bodies)
        invariant file == Some(Assembled(bodies))
        invariant downloadedBytes == Transferred(bodies)
        invariant progress == Progress(bodies)
      {
        var body := DownloadChunk(w, i);
        if body.None? || !w.writes(i) {
          NoBodiesAfterFailure(w, i, numChunks);
          return false, progress;
        }
        OneMoreChunk(w, i);
        OneMoreBody(bodies, body.value);
        ProgressGrows(bodies, body.value);
        file := Some(WriteAt(file.value, body.value, Start(i)));
        bodies := bodies + [body.value];
        downloadedBytes := downloadedBytes + |body.value|;
        progress := progress + [downloadedBytes];
        i := i + 1;
      }
      return true, progress;
    }

    /** `contentLength` is what the size request answered, if it answered at all. */
    method Download(w: World, contentLength: Option<int>) returns (r: Outcome, progress: seq<int>)
      modifies this
      ensures contentLength.None? || contentLength.value <= 0 ==> r == Failed && file == old(file)
      ensures contentLength.Some? && contentLength.value > 0 ==>
                var bodies := Bodies(w, NumChunks(contentLength.value));
                if w.opens && bodies.Some? && |Assembled(bodies.value)| == contentLength.value
                then r == Downloaded(contentLength.value) && file == Some(Assembled(bodies.value))
                     && progress == Progress(bodies.value)
                else r == Failed && file == None
    {
      hide Assembled, Progress, NumChunks, Bodies;
      if contentLength.None? || contentLength.value <= 0 {
        return Failed, [];
      }
      var totalSize := contentLength.value;
      file := None;
      if !w.opens {
        return Failed, [];
      }
      file := Some([]);
      var complete: bool;
      complete, progress := FetchChunks(w, NumChunks(totalSize));
      if !complete || |file.value| != totalSize {
        file := None;
        return Failed, progress;
      }
      return Downloaded(totalSize), progress;
    }
  }

  lemma {:induction false} NoBodiesAfterFailure(w: World, i: nat, n: nat)
    requires i < n && (Fetched(w, i, 0).None? || !w.writes(i))
    ensures Bodies(w, n).None?
    decreases n
  {
    if i < n - 1 {
      NoBodiesAfterFailure(w, i, n - 1);
    }
  }

  lemma NothingYet(w: World)
    ensures Bodies(w, 0) == Some([])
    ensures Assembled([]) == [] && Transferred([]) == 0 && Progress([]) == []
  {
  }

  lemma OneMoreChunk(w: World, i: nat)
    requires Bodies(w, i).Some? && Fetched(w, i, 0).Some? && w.writes(i)
    ensures Bodies(w, i + 1) == Some(Bodies(w, i).value + [Fetched(w, i, 0).value])
  {
  }

  lemma OneMoreBody(bodies: seq<seq<Byte>>, body: seq<Byte>)
    ensures Assembled(bodies + [body]) == WriteAt(Assembled(bodies), body, Start(|bodies|))
    ensures Transferred(bodies + [body]) == Transferred(bodies) + |body|
  {
    hide WriteAt;
    assert (bodies + [body])[..|bodies|] == bodies;
  }

  lemma ProgressGrows(bodies: seq<seq<Byte>>, body: seq<Byte>)
    ensures Progress(bodies + [body]) == Progress(bodies) + [Transferred(bodies) + |body|]
  {
    var all := bodies + [body];
    OneMoreBody(bodies, body);
    hide Transferred;
    forall i | 0 <= i < |bodies| ensures Progress(all)[i] == Progress(bodies)[i] {
      assert all[..i + 1] == bodies[..i + 1];
    }
    assert all[..|bodies| + 1] == all;
  }

  // ---------------------------------------------------------------- What a success means

  /** No reply is longer than what was asked for. */
  predicate WithinRanges(bodies: seq<seq<Byte>>, totalSize: nat) {
    |bodies| <= NumChunks(totalSize) && forall i | 0 <= i < |bodies| :: |bodies[i]| <= End(i, totalSize) - Start(i) + 1
  }

  /** Every reply is exactly the slice asked for. */
  predicate Honest(bodies: seq<seq<Byte>>, source: seq<Byte>) {
    forall i | 0 <= i < |bodies| ::
      && 0 <= Start(i) <= End(i, |source|) < |source|
      && bodies[i] == source[Start(i)..End(i, |source|) + 1]
  }

  /** What the first n ranges cover. */
  function Covered(source: seq<Byte>, n: nat): seq<Byte> {
    source[..if Start(n) < |source| then Start(n) else |source|]
  }

  lemma OneMoreSlice(source: seq<Byte>, i: nat)
    requires Start(i) < |source|
    ensures |Covered(source, i)| == Start(i) <= End(i, |source|) < |source|
    ensures Covered(source, i) + source[Start(i)..End(i, |source|) + 1] == Covered(source, i + 1)
  {
  }

  lemma {:induction false} HonestPrefix(bodies: seq<seq<Byte>>, source: seq<Byte>)
    requires Honest(bodies, source)
    ensures Assembled(bodies) == Covered(source, |bodies|)
    ensures Transferred(bodies) == |Assembled(bodies)|
  {
    if bodies != [] {
      var last := |bodies| - 1;
      HonestPrefix(bodies[..last], source);
      OneMoreSlice(source, last);
      WriteReaches(Assembled(bodies[..last]), bodies[last], Start(last));
      hide WriteAt, Covered;
    }
  }

  /** When every chunk can be fetched and written and every reply is its slice, the file is the source. */
  lemma HonestRepliesGiveTheSource(w: World, source: seq<Byte>)
    requires source != [] && Bodies(w, NumChunks(|source|)).Some?
    requires Honest(Bodies(w, NumChunks(|source|)).value, source)
    ensures Assembled(Bodies(w, NumChunks(|source|)).value) == source
    ensures Transferred(Bodies(w, NumChunks(|source|)).value) == |source|
  {
    var bodies := Bodies(w, NumChunks(|source|)).value;
    BodiesGrow(w, 0, NumChunks(|source|));
    hide Bodies, Assembled, Transferred, WriteAt, Honest;
    HonestPrefix(bodies, source);
    assert source[..|source|] == source;
  }

  /** And what the callback is told after a chunk is where the range of that chunk ends. */
  lemma HonestProgress(bodies: seq<seq<Byte>>, source: seq<Byte>, i: nat)
    requires Honest(bodies, source) && i < |bodies|
    ensures Progress(bodies)[i] == if (i + 1) * 10485760 < |source| then (i + 1) * 10485760 else |source|
  {
    HonestPrefix(bodies[..i + 1], source);
    hide Transferred, Assembled;
  }

  lemma {:induction false} LengthIsTheFurthestWrite(bodies: seq<seq<Byte>>, totalSize: nat)
    requires totalSize > 0 && WithinRanges(bodies, totalSize)
    ensures bodies != [] && bodies[|bodies| - 1] != [] ==>
              |Assembled(bodies)| == Start(|bodies| - 1) + |bodies[|bodies| - 1]|
    ensures |Assembled(bodies)| <= Start(|bodies|)
    ensures bodies != [] && bodies[|bodies| - 1] == [] ==> |Assembled(bodies)| <= Start(|bodies| - 1)
  {
    if bodies != [] {
      var last := |bodies| - 1;
      LengthIsTheFurthestWrite(bodies[..last], totalSize);
      RangesFollowOn(totalSize, last);
      WriteReaches(Assembled(bodies[..last]), bodies[last], Start(last));
      hide WriteAt, NumChunks;
    }
  }

  /** With no reply longer than its range, the size check passes exactly when the last chunk is complete: a short
      reply to any other chunk goes unnoticed. */
  lemma SizeCheckSeesOnlyTheLastChunk(bodies: seq<seq<Byte>>, totalSize: nat)
    requires totalSize > 0 && WithinRanges(bodies, totalSize) && |bodies| == NumChunks(totalSize)
    ensures |Assembled(bodies)| == totalSize
            <==> |bodies[|bodies| - 1]| == End(|bodies| - 1, totalSize) - Start(|bodies| - 1) + 1
  {
    LengthIsTheFurthestWrite(bodies, totalSize);
    RangesFollowOn(totalSize, |bodies| - 1);
  }

  /** A server that ignores ranges and sends the whole file every time: the download succeeds exactly when one chunk
      is enough. */
  lemma {:induction false} WholeFileReplies(bodies: seq<seq<Byte>>, source: seq<Byte>)
    requires source != [] && bodies != [] && forall i | 0 <= i < |bodies| :: bodies[i] == source
    requires |bodies| <= NumChunks(|source|)
    ensures |Assembled(bodies)| == Start(|bodies| - 1) + |source|
    ensures |bodies| == NumChunks(|source|) ==> (|Assembled(bodies)| == |source| <==> NumChunks(|source|) == 1)
  {
    var last := |bodies| - 1;
    if last > 0 {
      WholeFileReplies(bodies[..last], source);
    } else {
      assert bodies[..last] == [];
    }
    WriteReaches(Assembled(bodies[..last]), source, Start(last));
    hide WriteAt;
  }

  // ---------------------------------------------------------------- Which bytes are where

  /** The body kept for a chunk is that of the first good reply among its three, the earlier ones being none. */
  lemma FirstGoodReplyIsKept(w: World, n: nat, i: nat) returns (attempt: nat)
    requires Bodies(w, n).Some? && i < n
    ensures attempt < 3 && IsGood(w.reply(i, attempt))
    ensures |Bodies(w, n).value| == n && Bodies(w, n).value[i] == w.reply(i, attempt).body
    ensures forall a | 0 <= a < attempt :: !IsGood(w.reply(i, a))
  {
    BodiesGrow(w, 0, n);
    hide Bodies;
    attempt := FirstGood(w, i, 0);
  }

  lemma {:induction false} FirstGood(w: World, chunk: nat, from: nat) returns (attempt: nat)
    requires from <= MAX_CHUNK_RETRIES && Fetched(w, chunk, from).Some?
    ensures from <= attempt < 3 && IsGood(w.reply(chunk, attempt))
    ensures Fetched(w, chunk, from) == Some(w.reply(chunk, attempt).body)
    ensures forall a | from <= a < attempt :: !IsGood(w.reply(chunk, a))
    decreases MAX_CHUNK_RETRIES - from
  {
    if IsGood(w.reply(chunk, from)) {
      attempt := from;
    } else {
      attempt := FirstGood(w, chunk, from + 1);
    }
  }

  lemma {:induction false} BodiesAreInside(bodies: seq<seq<Byte>>, totalSize: nat, i: nat)
    requires totalSize > 0 && WithinRanges(bodies, totalSize) && i < |bodies| && bodies[i] != []
    ensures Start(i) + |bodies[i]| <= |Assembled(bodies)|
  {
    var last := |bodies| - 1;
    LengthIsTheFurthestWrite(bodies[..last], totalSize);
    WriteReaches(Assembled(bodies[..last]), bodies[last], Start(last));
    if i < last {
      BodiesAreInside(bodies[..last], totalSize, i);
    }
    hide WriteAt, NumChunks;
  }

  lemma WriteKeeps(file: seq<Byte>, data: seq<Byte>, offset: nat, p: nat)
    requires |file| <= offset && p < |WriteAt(file, data, offset)|
    ensures WriteAt(file, data, offset)[p]
            == if p < |file| then file[p] else if p < offset then 0 else data[p - offset]
  {
  }

  lemma AssembledLast(bodies: seq<seq<Byte>>)
    requires bodies != []
    ensures Assembled(bodies)
            == WriteAt(Assembled(bodies[..|bodies| - 1]), bodies[|bodies| - 1], Start(|bodies| - 1))
  {
  }

  lemma BeforeIsWithinRanges(bodies: seq<seq<Byte>>, totalSize: nat)
    requires WithinRanges(bodies, totalSize) && bodies != []
    ensures WithinRanges(bodies[..|bodies| - 1], totalSize)
  {
    hide NumChunks;
  }

  /** With no reply longer than its range, each byte of the file is the byte its own chunk's reply has there, and zero
      where that reply was too short. */
  lemma {:induction false} BytesAreInPlace(bodies: seq<seq<Byte>>, totalSize: nat, i: nat, k: nat)
    requires totalSize > 0 && WithinRanges(bodies, totalSize)
    requires k < 10485760 && Start(i) + k < |Assembled(bodies)|
    ensures i < |bodies|
    ensures Assembled(bodies)[Start(i) + k] == if k < |bodies[i]| then bodies[i][k] else 0
  {
    hide NumChunks, Assembled, WriteAt, WithinRanges;
    LengthIsTheFurthestWrite(bodies, totalSize);
    var last := |bodies| - 1;
    var before := bodies[..last];
    AssembledLast(bodies);
    BeforeIsWithinRanges(bodies, totalSize);
    LengthIsTheFurthestWrite(before, totalSize);
    if Start(i) + k < |Assembled(before)| {
      BytesAreInPlace(before, totalSize, i, k);
    } else if i < last && bodies[i] != [] {
      BodiesAreInside(before, totalSize, i);
    }
    WriteReaches(Assembled(before), bodies[last], Start(last));
    WriteKeeps(Assembled(before), bodies[last], Start(last), Start(i) + k);
  }
}
