/** The encrypted session file: reading it says which of three things happened, an unreadable one is cleared only
    when no later run could read it, and an incident is kept until somebody reports it. */
module AuthStorage {
  import opened Wrappers

  datatype Session = Session(accessToken: string, refreshToken: string, payload: string)

  predicate Usable(s: Session) {
    s.accessToken != "" && s.refreshToken != ""
  }

  /** What a file says once it is plain text: not JSON, or a session whose missing members are empty. */
  datatype Plain = Garbage | Parsed(session: Session)

  /** A file encrypted with one of the operating system's keys, which only that key decrypts, or one that a write
      left cut short, which nothing does. */
  datatype Blob = Sealed(key: nat, plain: Plain) | Broken

  /** A write truncates the file before it fills it: it can complete, be refused with the file as it was, or break
      off. */
  datatype Write = Completes | Refused | BreaksOff

  datatype Reason = ReadFailed | EncryptionUnavailable | DecryptFailed | Corrupt | Invalid

  datatype Failure = Failure(reason: Reason, cleared: bool, at: int)

  datatype Result = Loaded(session: Session) | Empty | Unreadable(failure: Failure)

  predicate Recoverable(r: Reason) {
    r.ReadFailed? || r.EncryptionUnavailable?
  }

  /** The clock, and what the operating system lets one call do. */
  datatype Host = Host(now: int, key: nat, canEncrypt: bool, canRead: bool, write: Write, canUnlink: bool,
                       canReadLegacy: bool, canUnlinkLegacy: bool)

  /** The two files and the latch; `incidents` counts the failures so far, the latched one being the latest, and
      `reported` has the numbers of those handed out for good. */
  datatype State = State(blob: Option<Blob>, legacy: Option<Plain>, latch: Option<Failure>,
                         incidents: nat, reported: seq<nat>)

  const INITIAL := State(None, None, None, 0, [])

  /** A save that gets as far as writing. */
  predicate Attempts(session: Session, h: Host) {
    Usable(session) && h.canEncrypt
  }

  predicate Saves(session: Session, h: Host) {
    Attempts(session, h) && h.write.Completes?
  }

  function Saved(s: State, session: Session, h: Host): State {
    if !Attempts(session, h) then s else
    match h.write
    case Completes => s.(blob := Some(Sealed(h.key, Parsed(session))), latch := None)
    case Refused => s
    case BreaksOff => s.(blob := Some(Broken))
  }

  /** The plain-text file of an older version: taken over when it holds a session, removed when it holds a broken
      one, and left alone when it cannot be read or parsed. */
  function Migrated(s: State, h: Host): State {
    match s.legacy
    case None => s
    case Some(Garbage) => s
    case Some(Parsed(session)) =>
      var gone := if h.canUnlinkLegacy then None else s.legacy;
      if !h.canReadLegacy then s
      else if !Usable(session) then s.(legacy := gone)
      else if Saves(session, h) then Saved(s, session, h).(legacy := gone)
      else Saved(s, session, h)
  }

  /** A failure is latched; a terminal one takes the file with it if it can be removed. */
  function Recorded(s: State, reason: Reason, h: Host): (State, Result) {
    var failure := Failure(reason, !Recoverable(reason) && h.canUnlink, h.now);
    (s.(latch := Some(failure), incidents := s.incidents + 1, blob := if failure.cleared then None else s.blob),
     Unreadable(failure))
  }

  function ReadBlob(s: State, h: Host): (State, Result) {
    match s.blob
    case None => (s, Empty)
    case Some(blob) =>
      if !h.canRead then Recorded(s, ReadFailed, h)
      else if !h.canEncrypt then Recorded(s, EncryptionUnavailable, h)
      else if blob.Broken? || blob.key != h.key then Recorded(s, DecryptFailed, h)
      else if blob.plain.Garbage? then Recorded(s, Corrupt, h)
      else if !Usable(blob.plain.session) then Recorded(s, Invalid, h)
      else (s, Loaded(blob.plain.session))
  }

  function Read(s: State, h: Host): (State, Result) {
    ReadBlob(Migrated(s, h), h)
  }

  function Cleared(s: State, h: Host): (State, bool) {
    if s.blob.Some? && !h.canUnlink then (s, false)
    else if s.legacy.Some? && !h.canUnlinkLegacy then (s.(blob := None), false)
    else (s.(blob := None, legacy := None, latch := None), true)
  }

  function Taken(s: State, consume: bool): (State, Option<Failure>) {
    (s.(latch := if consume then None else s.latch,
        reported := if consume && s.latch.Some? then s.reported + [s.incidents] else s.reported),
     s.latch)
  }

  // ---------------------------------------------------------------- The object

  class Storage {
    var blob: Option<Blob>
    var legacy: Option<Plain>
    var latch: Option<Failure>
    ghost var incidents: nat
    ghost var reported: seq<nat>

    constructor ()
      ensures View() == INITIAL
    {
      blob, legacy, latch, incidents, reported := None, None, None, 0, [];
    }

    ghost function View(): State
      reads this
    {
      State(blob, legacy, latch, incidents, reported)
    }

    method SaveAuth(session: Session, h: Host) returns (saved: bool)
      modifies this
      ensures saved <==> Saves(session, h)
      ensures View() == Saved(old(View()), session, h)
    {
      if session.accessToken == "" || session.refreshToken == "" || !h.canEncrypt {
        return false;
      }
      match h.write {
        case Refused =>
          return false;
        case BreaksOff =>
          blob := Some(Broken);
          return false;
        case Completes =>
          blob := Some(Sealed(h.key, Parsed(session)));
          latch := None;
          return true;
      }
    }

    method MigrateLegacyAuth(h: Host)
      modifies this
      ensures View() == Migrated(old(View()), h)
    {
      if legacy.None? || !h.canReadLegacy || legacy.value.Garbage? {
        return;
      }
      if !Usable(legacy.value.session) {
        if h.canUnlinkLegacy {
          legacy := None;
        }
        return;
      }
      var saved := SaveAuth(legacy.value.session, h);
      if saved && h.canUnlinkLegacy {
        legacy := None;
      }
    }

    method RecordFailure(reason: Reason, h: Host) returns (r: Result)
      modifies this
      ensures (View(), r) == Recorded(old(View()), reason, h)
    {
      var cleared := !Recoverable(reason) && h.canUnlink;
      if cleared {
        blob := None;
      }
      latch := Some(Failure(reason, cleared, h.now));
      incidents := incidents + 1;
      r := Unreadable(latch.value);
    }

    method ReadStoredAuth(h: Host) returns (r: Result)
      modifies this
      ensures (View(), r) == Read(old(View()), h)
    {
      MigrateLegacyAuth(h);
      if blob.None? {
        return Empty;
      }
      if !h.canRead {
        r := RecordFailure(ReadFailed, h);
        return;
      }
      if !h.canEncrypt {
        r := RecordFailure(EncryptionUnavailable, h);
        return;
      }
      if blob.value.Broken? || blob.value.key != h.key {
        r := RecordFailure(DecryptFailed, h);
        return;
      }
      var plain := blob.value.plain;
      if plain.Garbage? {
        r := RecordFailure(Corrupt, h);
        return;
      }
      if !Usable(plain.session) {
        r := RecordFailure(Invalid, h);
        return;
      }
      return Loaded(plain.session);
    }

    method ClearAuth(h: Host) returns (cleared: bool)
      modifies this
      ensures (View(), cleared) == Cleared(old(View()), h)
    {
      if blob.Some? {
        if !h.canUnlink {
          return false;
        }
        blob := None;
      }
      if legacy.Some? {
        if !h.canUnlinkLegacy {
          return false;
        }
        legacy := None;
      }
      latch := None;
      return true;
    }

    method TakeLoadFailure(consume: bool) returns (failure: Option<Failure>)
      modifies this
      ensures (View(), failure) == Taken(old(View()), consume)
    {
      failure := latch;
      if consume {
        if latch.Some? {
          reported := reported + [incidents];
        }
        latch := None;
      }
    }
  }

  // ---------------------------------------------------------------- Reading back what was saved

  /** The session a read tries to take over from the old plain-text file, if it tries. */
  function TriesToTakeOver(s: State, h: Host): Option<Session> {
    match s.legacy
    case Some(Parsed(session)) => if h.canReadLegacy && Attempts(session, h) then Some(session) else None
    case _ => None
  }

  predicate Works(h: Host) {
    h.canRead && h.canEncrypt
  }

  /** A read after a save returns the saved session exactly when the read tries to take no session over from an old
      plain-text file, or is refused, or takes over the same one. Otherwise the old one wins and the saved one is
      overwritten, or both are lost to the write. */
  lemma SaveThenRead(s: State, session: Session, saving: Host, reading: Host)
    requires Saves(session, saving) && Works(reading) && reading.key == saving.key
    ensures var after := Saved(s, session, saving);
            var tried := TriesToTakeOver(after, reading);
            && (Read(after, reading).1 == Loaded(session)
                <==> tried.None? || reading.write.Refused? || (reading.write.Completes? && tried.value == session))
            && (tried.Some? && reading.write.Completes? ==> Read(after, reading).1 == Loaded(tried.value))
  {
  }

  /** And as long as the old file cannot be removed, it wins again on every read that can encrypt and write. */
  lemma UnremovableLegacyAlwaysWins(s: State, stale: Session, session: Session, saving: Host, reading: Host)
    requires s.legacy == Some(Parsed(stale)) && Saves(stale, reading) && reading.canReadLegacy && Works(reading)
    requires !reading.canUnlinkLegacy && Saves(session, saving)
    ensures var (after, r) := Read(Saved(s, session, saving), reading);
            r == Loaded(stale) && after.legacy == s.legacy
  {
  }

  // ---------------------------------------------------------------- What a read may destroy

  /** Some read with this key could still load a session from the file. */
  predicate Readable(blob: Option<Blob>, key: nat) {
    && blob.Some? && blob.value.Sealed? && blob.value.key == key
    && blob.value.plain.Parsed? && Usable(blob.value.plain.session)
  }

  /** A session that can be read survives a read, whatever else fails, exactly unless the read tries to take another
      over and its write breaks off. */
  lemma ReadDestroysOnlyByABrokenWrite(s: State, h: Host)
    requires Readable(s.blob, h.key)
    ensures Readable(Read(s, h).0.blob, h.key) <==> !(TriesToTakeOver(s, h).Some? && h.write.BreaksOff?)
    ensures TriesToTakeOver(s, h).None? || h.write.Refused? ==> Read(s, h).0.blob == s.blob
  {
  }

  /** Whatever the migration leaves as session file, the read deletes it exactly when it could be read and decryption
      is on offer, it still gives no session under the present key, and it can be deleted; a later read that takes
      over no old file then finds nothing instead of failing again. */
  lemma ReadDeletesExactlyTheHopeless(s: State, h: Host, later: Host)
    ensures var (after, r) := Read(s, h);
            var blob := Migrated(s, h).blob;
            && (blob.None? ==> r == Empty && after == Migrated(s, h))
            && (blob.Some? ==> (after.blob.None? <==> Works(h) && h.canUnlink && !Readable(blob, h.key)))
            && (after.blob.Some? ==> after.blob == blob)
            && (blob.Some? && after.blob.None? ==> r.Unreadable? && r.failure.cleared)
            && (after.blob.None? && (TriesToTakeOver(after, later).None? || later.write.Refused?) ==>
                  Read(after, later).1 == Empty)
            && (r.Unreadable? && Recoverable(r.failure.reason) ==> !Works(h))
  {
  }

  /** What a read says, exactly: the session when there is one to be had, and else what stood in the way first, and
      when. */
  lemma ReadSaysWhy(s: State, h: Host)
    ensures var (after, r) := Read(s, h);
            var blob := Migrated(s, h).blob;
            && (r == Empty <==> blob.None?)
            && (r.Loaded? <==> Works(h) && Readable(blob, h.key))
            && (r.Loaded? ==> r.session == blob.value.plain.session)
            && (r.Unreadable? ==> r.failure.at == h.now && (r.failure.cleared <==> after.blob.None?))
            && (r.Unreadable? ==>
                  match r.failure.reason
                  case ReadFailed => !h.canRead
                  case EncryptionUnavailable => h.canRead && !h.canEncrypt
                  case DecryptFailed => Works(h) && (blob.value.Sealed? ==> blob.value.key != h.key)
                  case Corrupt =>
                    Works(h) && blob.value.Sealed? && blob.value.key == h.key && blob.value.plain.Garbage?
                  case Invalid =>
                    && Works(h) && blob.value.Sealed? && blob.value.key == h.key && blob.value.plain.Parsed?
                    && (blob.value.plain.session.accessToken == "" || blob.value.plain.session.refreshToken == ""))
  {
  }

  /** The old plain-text file goes exactly when it can be read and removed and either has no session worth keeping or
      has been taken over. */
  lemma OldFileGoesExactly(s: State, h: Host)
    requires s.legacy.Some?
    ensures Read(s, h).0.legacy.None?
            <==> && s.legacy.value.Parsed? && h.canReadLegacy && h.canUnlinkLegacy
                 && (|| s.legacy.value.session.accessToken == "" || s.legacy.value.session.refreshToken == ""
                     || (h.canEncrypt && h.write.Completes?))
    ensures Read(s, h).0.legacy.Some? ==> Read(s, h).0.legacy == s.legacy
  {
  }

  /** A clear succeeds exactly when what is there can be removed, and then nothing is left to read or to report. */
  lemma ClearForgets(s: State, h: Host, later: Host)
    ensures var (after, cleared) := Cleared(s, h);
            && (cleared <==> (s.blob.Some? ==> h.canUnlink) && (s.legacy.Some? ==> h.canUnlinkLegacy))
            && (cleared ==> Read(after, later) == (after, Empty) && after.latch.None?)
            && (!cleared ==> after.latch == s.latch && after.legacy == s.legacy)
            && (s.blob.Some? && !h.canUnlink ==> after == s)
  {
  }

  // ---------------------------------------------------------------- Every history

  datatype Operation =
    | SaveSession(session: Session, host: Host)
    | ReadSession(host: Host)
    | ClearSession(host: Host)
    | TakeFailure(consume: bool)
    | OldFileAppears(plain: Plain)
    | FileDamaged(blob: Blob)

  function Perform(s: State, op: Operation): State {
    match op
    case SaveSession(session, h) => Saved(s, session, h)
    case ReadSession(h) => Read(s, h).0
    case ClearSession(h) => Cleared(s, h).0
    case TakeFailure(consume) => Taken(s, consume).0
    case OldFileAppears(plain) => s.(legacy := Some(plain))
    case FileDamaged(blob) => s.(blob := Some(blob))
  }

  function After(history: seq<Operation>): State {
    if history == [] then INITIAL else Perform(After(history[..|history| - 1]), history[|history| - 1])
  }

  ghost predicate OnceEach(s: State) {
    && (forall i | 0 <= i < |s.reported| :: 1 <= s.reported[i] <= s.incidents)
    && (forall i, j | 0 <= i < j < |s.reported| :: s.reported[i] < s.reported[j])
    && (s.latch.Some? ==> s.incidents >= 1 && forall i | 0 <= i < |s.reported| :: s.reported[i] < s.incidents)
  }

  /** A read either records one new incident, or lets the latch be or clears it. */
  lemma ReadLatches(s: State, h: Host)
    ensures var (after, r) := Read(s, h);
            && after.reported == s.reported
            && (if r.Unreadable? then after.latch == Some(r.failure) && after.incidents == s.incidents + 1
                else (after.latch == s.latch || after.latch.None?) && after.incidents == s.incidents)
  {
  }

  lemma OperationReportsOnce(s: State, op: Operation)
    requires OnceEach(s)
    ensures OnceEach(Perform(s, op))
  {
    if op.ReadSession? {
      ReadLatches(s, op.host);
    }
    hide Read;
  }

  /** Over every history each incident is handed out for good at most once, oldest first. */
  lemma {:induction false} IncidentsAreReportedOnce(history: seq<Operation>)
    ensures OnceEach(After(history))
  {
    if history != [] {
      IncidentsAreReportedOnce(history[..|history| - 1]);
      OperationReportsOnce(After(history[..|history| - 1]), history[|history| - 1]);
      hide Perform, OnceEach;
    }
  }

  /** An operation that gives the latch up, or puts another failure in it: a save or a clear that completes, a consuming
      take, a read that fails, and a read that completes the take-over of an old file. */
  predicate MovesLatch(s: State, op: Operation) {
    match op
    case SaveSession(session, h) => Saves(session, h)
    case ReadSession(h) => Read(s, h).1.Unreadable? || (TriesToTakeOver(s, h).Some? && h.write.Completes?)
    case ClearSession(h) => Cleared(s, h).1
    case TakeFailure(consume) => consume
    case OldFileAppears(_) | FileDamaged(_) => false
  }

  /** No other operation touches it, and one that does leaves it empty or with the failure of its own read. */
  lemma OnlyMovesChangeLatch(s: State, op: Operation)
    ensures !MovesLatch(s, op) ==> Perform(s, op).latch == s.latch
    ensures MovesLatch(s, op) ==>
              Perform(s, op).latch == if op.ReadSession? && Read(s, op.host).1.Unreadable?
                                      then Some(Read(s, op.host).1.failure) else None
  {
  }

  lemma FailedReadMoves(s: State, h: Host)
    requires Read(s, h).1.Unreadable?
    ensures Perform(s, ReadSession(h)).latch == Some(Read(s, h).1.failure)
  {
    OnlyMovesChangeLatch(s, ReadSession(h));
  }

  lemma AfterOneMore(history: seq<Operation>, op: Operation)
    ensures After(history + [op]) == Perform(After(history), op)
  {
    var all := history + [op];
    assert all[..|all| - 1] == history && all[|all| - 1] == op;
    hide Perform;
  }

  /** The latest failed read is what a take returns until one of those puts it to rest. */
  lemma {:induction false} LatchHoldsTheLatest(history: seq<Operation>, h: Host, quiet: seq<Operation>)
    requires Read(After(history), h).1.Unreadable?
    requires forall i | 0 <= i < |quiet| :: !MovesLatch(After(history + [ReadSession(h)] + quiet[..i]), quiet[i])
    ensures After(history + [ReadSession(h)] + quiet).latch == Some(Read(After(history), h).1.failure)
    ensures forall consume ::
              Taken(After(history + [ReadSession(h)] + quiet), consume).1 == Some(Read(After(history), h).1.failure)
  {
    hide Read, MovesLatch, Perform, After;
    var failed := history + [ReadSession(h)];
    if quiet == [] {
      assert failed + quiet == failed;
      AfterOneMore(history, ReadSession(h));
      FailedReadMoves(After(history), h);
    } else {
      var last, sofar := quiet[|quiet| - 1], quiet[..|quiet| - 1];
      forall i | 0 <= i < |sofar| ensures !MovesLatch(After(failed + sofar[..i]), sofar[i]) {
        assert sofar[..i] == quiet[..i] && sofar[i] == quiet[i];
      }
      LatchHoldsTheLatest(history, h, sofar);
      assert failed + quiet == failed + sofar + [last];
      AfterOneMore(failed + sofar, last);
      OnlyMovesChangeLatch(After(failed + sofar), last);
    }
  }
}
