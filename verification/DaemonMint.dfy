/** The pre-spawn mint of a daemon PAT: reuse, retry, at most one session refresh, and the write. */
module DaemonMint {
  import opened Wrappers
  import opened Text
  import opened DaemonStore

  // ---------------------------------------------------------------- One mint request

  const MINT_MAX_ATTEMPTS := 3
  const TOKEN_EXPIRY_MARGIN_S := 60
  const RETRYABLE_STATUSES: set<int> := {502, 503, 504}
  const RETRYABLE_CODES: seq<string> :=
    ["ECONNREFUSED", "ECONNRESET", "ETIMEDOUT", "EAI_AGAIN", "ENETUNREACH", "EHOSTUNREACH", "EPIPE"]

  predicate IsAlphanumeric(c: char) {
    '0' <= c <= '9' || 'A' <= c <= 'Z' || 'a' <= c <= 'z'
  }

  /** rlat_ and 32 base-62 characters. */
  predicate IsAccessToken(t: string) {
    |t| == 37 && t[..5] == "rlat_" && forall i | 5 <= i < 37 :: IsAlphanumeric(t[i])
  }

  /** A failed request: a status when the server answered, error codes when it was not reached. */
  datatype MintError = MintError(
    terminal: bool, status: Option<int>, name: string, code: string, causeCode: string, message: string)

  /** What the network gives one request: a body with a token, or an error. */
  datatype MintReply = Answered(token: string) | Failed(error: MintError)

  function Parse(reply: MintReply): Result<string, MintError> {
    match reply
    case Failed(e) => Err(e)
    case Answered(token) =>
      if IsAccessToken(token) then Ok(token)
      else Err(MintError(true, None, "Error", "", "", "CreateToken returned no usable token"))
  }

  predicate IsRetryable(e: MintError) {
    if e.terminal then false
    else if e.status.Some? then e.status.value in RETRYABLE_STATUSES
    else if e.name == "AbortError" then false
    else if e.name == "TimeoutError" then true
    else
      || (if e.code != "" then e.code else e.causeCode) in RETRYABLE_CODES
      || exists i | 0 <= i < |RETRYABLE_CODES| :: Contains(e.message, RETRYABLE_CODES[i])
  }

  /** The outcome of a mint and the number of requests it made. */
  datatype MintRun = MintRun(result: Result<string, MintError>, requests: nat)

  /** The replies from `first` on, until one succeeds, is not worth retrying, or is the last allowed. */
  function Attempts(replies: nat -> MintReply, first: nat, attempt: nat): MintRun
    requires 1 <= attempt <= MINT_MAX_ATTEMPTS
    decreases MINT_MAX_ATTEMPTS - attempt
  {
    match Parse(replies(first))
    case Ok(token) => MintRun(Ok(token), 1)
    case Err(e) =>
      if !IsRetryable(e) || attempt == MINT_MAX_ATTEMPTS then MintRun(Err(e), 1)
      else var rest := Attempts(replies, first + 1, attempt + 1); MintRun(rest.result, 1 + rest.requests)
  }

  method MintDaemonPAT(replies: nat -> MintReply, first: nat) returns (run: MintRun)
    ensures run == Attempts(replies, first, 1)
  {
    var attempt := 1;
    while true
      invariant 1 <= attempt <= MINT_MAX_ATTEMPTS
      invariant Attempts(replies, first, 1).result == Attempts(replies, first + attempt - 1, attempt).result
      invariant Attempts(replies, first, 1).requests
                == attempt - 1 + Attempts(replies, first + attempt - 1, attempt).requests
      decreases MINT_MAX_ATTEMPTS - attempt
    {
      var parsed := Parse(replies(first + attempt - 1));
      if parsed.Ok? {
        return MintRun(parsed, attempt);
      }
      if !IsRetryable(parsed.error) || attempt == MINT_MAX_ATTEMPTS {
        return MintRun(parsed, attempt);
      }
      attempt := attempt + 1;
    }
  }

  /** Every reply but the last was a failure worth retrying; the last is the result, and it is final:
      a token, a failure not worth retrying, or the last attempt. */
  lemma {:induction false} AttemptsStopAtTheFirstFinalReply(replies: nat -> MintReply, first: nat, attempt: nat)
    requires 1 <= attempt <= MINT_MAX_ATTEMPTS
    ensures var run := Attempts(replies, first, attempt);
            && 1 <= run.requests <= MINT_MAX_ATTEMPTS - attempt + 1
            && run.result == Parse(replies(first + run.requests - 1))
            && (run.result.Ok? ==> IsAccessToken(run.result.value))
            && (run.result.Err? ==>
                  !IsRetryable(run.result.error) || run.requests == MINT_MAX_ATTEMPTS - attempt + 1)
            && forall i | first <= i < first + run.requests - 1 ::
                 Parse(replies(i)).Err? && IsRetryable(Parse(replies(i)).error)
    decreases MINT_MAX_ATTEMPTS - attempt
  {
    hide IsRetryable, IsAccessToken;
    if attempt < MINT_MAX_ATTEMPTS {
      AttemptsStopAtTheFirstFinalReply(replies, first + 1, attempt + 1);
    }
    if Parse(replies(first)).Ok? {
      assert IsAccessToken(Parse(replies(first)).value) by { ParsedIsToken(replies(first)); }
    }
  }

  lemma ParsedIsToken(reply: MintReply)
    ensures Parse(reply).Ok? ==> IsAccessToken(Parse(reply).value)
  {
  }

  // ---------------------------------------------------------------- The session

  /** The stored sign-in. An absent string is empty; an absent expiry is 0. */
  datatype Session = Session(accessToken: string, refreshToken: string, expiresAt: int, userId: string, email: string)

  datatype User = User(id: string, email: string)

  /** What the refresh endpoint gives: a failure, or the members it sent. */
  datatype RefreshReply =
    | RefreshFailed
    | Refreshed(accessToken: string, refreshToken: string, expiresAt: int, expiresIn: int, user: Option<User>)

  predicate NeedsRefresh(s: Session, nowMs: int) {
    s.expiresAt > 0 && s.expiresAt * 1000 <= nowMs + TOKEN_EXPIRY_MARGIN_S * 1000
  }

  /** The refreshed session; members the endpoint left out are carried forward. */
  function Refresh(s: Session, reply: RefreshReply, nowS: int): Option<Session> {
    match reply
    case RefreshFailed => None
    case Refreshed(accessToken, refreshToken, expiresAt, expiresIn, user) =>
      if accessToken == "" then None else
      Some(Session(
        accessToken,
        if refreshToken != "" then refreshToken else s.refreshToken,
        if expiresAt > 0 then expiresAt else if expiresIn > 0 then nowS + expiresIn else s.expiresAt,
        if user.Some? then user.value.id else s.userId,
        if user.Some? then user.value.email else s.email))
  }

  // ---------------------------------------------------------------- The preflight

  datatype Outcome = Minted | AlreadyCurrent | NoSession | Unavailable | EnsureFailed

  /** Everything the preflight does not decide: its arguments and the answers it gets. An `origin` of ""
      is a server URL that names none. */
  datatype World = World(
    hasAuthStorage: bool, origin: string, serverUrl: string, gatewayUrl: string, refreshConfigured: bool,
    nowMs: int, now: int, mint: nat -> MintReply, refresh: RefreshReply, saves: bool, deletes: bool, writes: bool)

  /** What persists between two preflights. */
  datatype Disk = Disk(document: Document, session: Option<Session>)

  datatype Report = Report(outcome: Outcome, disk: Disk, requests: nat, refreshes: nat)

  /** The session in hand while the mint runs, and whether the one refresh has been spent. */
  datatype Hand = Hand(session: Session, sub: string, spent: bool)

  function SubOf(session: Option<Session>): string {
    if session.Some? then session.value.userId else ""
  }

  function TokenOf(session: Option<Session>): string {
    if session.Some? then session.value.accessToken else ""
  }

  predicate IsCurrent(existing: Option<Entry>, sub: string) {
    && existing.Some? && IsAccessToken(existing.value.pat)
    && existing.value.sub != "" && sub != "" && existing.value.sub == sub
  }

  predicate IsLegacy(existing: Option<Entry>) {
    existing.Some? && existing.value.pat != "" && !IsAccessToken(existing.value.pat)
  }

  /** Takes over a refreshed session; a user without an id leaves the account as it was. */
  function TakeOver(hand: Hand, next: Session): Hand {
    Hand(next, if next.userId != "" then next.userId else hand.sub, true)
  }

  function Persist(w: World, disk: Disk, next: Session): Disk {
    if w.saves then disk.(session := Some(next)) else disk
  }

  function GrantOf(w: World, hand: Hand, token: string): Grant {
    Grant(w.origin, w.serverUrl, w.gatewayUrl, token, hand.sub, hand.session.email)
  }

  function WriteDown(w: World, disk: Disk, hand: Hand, token: string, requests: nat, refreshes: nat): Report {
    if w.origin != "" && token != "" && w.writes then
      Report(Minted, disk.(document := Stored(Upserted(Read(disk.document), GrantOf(w, hand, token), w.now))),
             requests, refreshes)
    else Report(EnsureFailed, disk, requests, refreshes)
  }

  /** Mint with what is in hand; a 401 with an unspent refresh earns one refresh and one more mint. */
  function MintWith(w: World, disk: Disk, hand: Hand, canRefresh: bool, refreshes: nat): Report {
    var first := Attempts(w.mint, 0, 1);
    match first.result
    case Ok(token) => WriteDown(w, disk, hand, token, first.requests, refreshes)
    case Err(e) =>
      if !(e.status == Some(401) && canRefresh && !hand.spent) then
        Report(EnsureFailed, disk, first.requests, refreshes)
      else
        match Refresh(hand.session, w.refresh, w.now)
        case None => Report(EnsureFailed, disk, first.requests, refreshes + 1)
        case Some(next) =>
          var second := Attempts(w.mint, first.requests, 1);
          var saved := Persist(w, disk, next);
          match second.result
          case Err(_) => Report(EnsureFailed, saved, first.requests + second.requests, refreshes + 1)
          case Ok(token) =>
            WriteDown(w, saved, TakeOver(hand, next), token, first.requests + second.requests, refreshes + 1)
  }

  /** Refresh first when the stored token is stale; a failed refresh is spent all the same. */
  function RefreshThenMint(w: World, disk: Disk, session: Session): Report {
    var canRefresh := w.refreshConfigured && session.refreshToken != "";
    var hand := Hand(session, session.userId, false);
    if !(canRefresh && NeedsRefresh(session, w.nowMs)) then MintWith(w, disk, hand, canRefresh, 0) else
    match Refresh(session, w.refresh, w.now)
    case None => MintWith(w, disk, hand.(spent := true), canRefresh, 1)
    case Some(next) => MintWith(w, Persist(w, disk, next), TakeOver(hand, next), canRefresh, 1)
  }

  function WithoutLegacy(w: World, disk: Disk): Disk {
    var c := Read(disk.document);
    var existing := ReadEntry(c, w.origin, SubOf(disk.session));
    if IsLegacy(existing) && w.deletes then
      disk.(document := Stored(Removed(c, w.origin, ResolveAccount(c, w.origin, SubOf(disk.session)))))
    else disk
  }

  function Ensure(w: World, disk: Disk): Report {
    if !w.hasAuthStorage || w.origin == "" then Report(Unavailable, disk, 0, 0) else
    var existing := ReadEntry(Read(disk.document), w.origin, SubOf(disk.session));
    if IsCurrent(existing, SubOf(disk.session)) then Report(AlreadyCurrent, disk, 0, 0)
    else if IsLegacy(existing) && !w.deletes then Report(EnsureFailed, disk, 0, 0)
    else if TokenOf(disk.session) == "" then Report(NoSession, WithoutLegacy(w, disk), 0, 0)
    else RefreshThenMint(w, WithoutLegacy(w, disk), disk.session.value)
  }

  /** The process that runs it: the credentials file and the stored session. */
  class Preflight {
    const file: CredentialsFile
    var session: Option<Session>

    constructor (file: CredentialsFile, session: Option<Session>)
      ensures this.file == file && this.session == session
    {
      this.file := file;
      this.session := session;
    }

    ghost function OnDisk(): Disk
      reads this, file
    {
      Disk(file.document, session)
    }

    method EnsurePAT(w: World) returns (outcome: Outcome, requests: nat, refreshes: nat)
      modifies this, file
      ensures Report(outcome, OnDisk(), requests, refreshes) == Ensure(w, old(OnDisk()))
    {
      requests, refreshes := 0, 0;
      if !w.hasAuthStorage || w.origin == "" {
        return Unavailable, 0, 0;
      }
      var held := session;
      var accessToken := TokenOf(held);
      var currentSub := SubOf(held);
      var existing := ReadEntry(Read(file.document), w.origin, currentSub);
      if IsCurrent(existing, currentSub) {
        return AlreadyCurrent, 0, 0;
      }
      if IsLegacy(existing) {
        var removed := file.Delete(w.origin, currentSub, w.deletes);
        if removed.Err? {
          return EnsureFailed, 0, 0;
        }
      }
      if accessToken == "" {
        return NoSession, 0, 0;
      }
      outcome, requests, refreshes := RefreshAndMint(w, held.value);
    }

    method RefreshAndMint(w: World, stored: Session) returns (outcome: Outcome, requests: nat, refreshes: nat)
      modifies this, file
      ensures Report(outcome, OnDisk(), requests, refreshes) == RefreshThenMint(w, old(OnDisk()), stored)
    {
      hide Upserted, Attempts, Refresh;
      var held, currentSub, refreshed := stored, stored.userId, false;
      refreshes := 0;
      var canRefresh := w.refreshConfigured && held.refreshToken != "";
      if canRefresh && NeedsRefresh(held, w.nowMs) {
        var next := Refresh(held, w.refresh, w.now);
        refreshes := 1;
        refreshed := true;
        if next.Some? {
          held := next.value;
          currentSub := if held.userId != "" then held.userId else currentSub;
          Save(w, held);
        }
      }
      ghost var disk, hand, spent := OnDisk(), Hand(held, currentSub, refreshed), refreshes;
      assert RefreshThenMint(w, old(OnDisk()), stored) == MintWith(w, disk, hand, canRefresh, spent);
      var run := MintDaemonPAT(w.mint, 0);
      requests := run.requests;
      if run.result.Err? {
        if !(run.result.error.status == Some(401) && canRefresh && !refreshed) {
          return EnsureFailed, requests, refreshes;
        }
        var next := Refresh(held, w.refresh, w.now);
        refreshes := refreshes + 1;
        if next.None? {
          return EnsureFailed, requests, refreshes;
        }
        held := next.value;
        currentSub := if held.userId != "" then held.userId else currentSub;
        Save(w, held);
        run := MintDaemonPAT(w.mint, requests);
        requests := requests + run.requests;
        if run.result.Err? {
          return EnsureFailed, requests, refreshes;
        }
      }
      var grant := Grant(w.origin, w.serverUrl, w.gatewayUrl, run.result.value, currentSub, held.email);
      var written := file.Upsert(grant, w.now, w.writes);
      outcome := if written then Minted else EnsureFailed;
    }

    method Save(w: World, next: Session)
      modifies this`session
      ensures session == if w.saves then Some(next) else old(session)
    {
      if w.saves {
        session := Some(next);
      }
    }
  }

  // ---------------------------------------------------------------- What a preflight can do

  /** Whom the PAT is minted for: the stored user, or the one a refresh named. */
  function ActingSub(w: World, stored: Option<Session>, refreshes: nat): string {
    if refreshes > 0 && w.refresh.Refreshed? && w.refresh.accessToken != "" && w.refresh.user.Some?
       && w.refresh.user.value.id != ""
    then w.refresh.user.value.id else SubOf(stored)
  }

  /** The grant a report wrote, if it minted: the token of its last request, for the acting user. */
  ghost predicate Wrote(w: World, before: Document, stored: Option<Session>, r: Report, g: Grant) {
    && r.requests > 0
    && Parse(w.mint(r.requests - 1)) == Ok(g.pat)
    && g.origin == w.origin && g.serverUrl == w.serverUrl && g.gatewayUrl == w.gatewayUrl
    && g.sub == ActingSub(w, stored, r.refreshes)
    && r.disk.document == Stored(Upserted(Read(before), g, w.now))
  }

  ghost predicate Sound(w: World, before: Document, stored: Option<Session>, r: Report) {
    && r.refreshes <= 1
    && r.requests <= (if r.refreshes == 0 then MINT_MAX_ATTEMPTS else 2 * MINT_MAX_ATTEMPTS)
    && r.outcome in {Minted, EnsureFailed}
    && (r.outcome == EnsureFailed ==> r.disk.document == before)
    && (r.outcome == Minted ==> exists g :: Wrote(w, before, stored, r, g))
  }

  lemma MintWithIsSound(w: World, disk: Disk, stored: Session, hand: Hand, canRefresh: bool, refreshes: nat)
    requires hand.spent <==> refreshes == 1
    requires refreshes <= 1
    requires hand.sub == ActingSub(w, Some(stored), refreshes)
    requires refreshes == 0 ==> hand.session == stored
    ensures Sound(w, disk.document, Some(stored), MintWith(w, disk, hand, canRefresh, refreshes))
  {
    hide Attempts, Upserted, IsAccessToken, IsRetryable;
    AttemptsStopAtTheFirstFinalReply(w.mint, 0, 1);
    var first := Attempts(w.mint, 0, 1);
    AttemptsStopAtTheFirstFinalReply(w.mint, first.requests, 1);
    var second := Attempts(w.mint, first.requests, 1);
    var r := MintWith(w, disk, hand, canRefresh, refreshes);
    if r.outcome == Minted {
      if first.result.Ok? {
        assert Wrote(w, disk.document, Some(stored), r, GrantOf(w, hand, first.result.value));
      } else {
        var next := Refresh(hand.session, w.refresh, w.now).value;
        assert Wrote(w, disk.document, Some(stored), r, GrantOf(w, TakeOver(hand, next), second.result.value));
      }
    }
  }

  lemma RefreshThenMintIsSound(w: World, disk: Disk, stored: Session)
    ensures Sound(w, disk.document, Some(stored), RefreshThenMint(w, disk, stored))
  {
    hide MintWith, Upserted, IsAccessToken;
    var canRefresh := w.refreshConfigured && stored.refreshToken != "";
    var hand := Hand(stored, stored.userId, false);
    if !(canRefresh && NeedsRefresh(stored, w.nowMs)) {
      MintWithIsSound(w, disk, stored, hand, canRefresh, 0);
    } else if Refresh(stored, w.refresh, w.now).None? {
      MintWithIsSound(w, disk, stored, hand.(spent := true), canRefresh, 1);
    } else {
      var next := Refresh(stored, w.refresh, w.now).value;
      MintWithIsSound(w, Persist(w, disk, next), stored, TakeOver(hand, next), canRefresh, 1);
    }
  }

  /** At most one refresh and two full mints; without the refresh, at most one. A preflight that reports
      the store current, or that it cannot run, asks nothing and changes nothing. */
  lemma EffortIsBounded(w: World, disk: Disk)
    ensures var r := Ensure(w, disk);
            && r.refreshes <= 1
            && r.requests <= (if r.refreshes == 0 then MINT_MAX_ATTEMPTS else 2 * MINT_MAX_ATTEMPTS)
            && (r.outcome in {AlreadyCurrent, Unavailable} ==> r == Report(r.outcome, disk, 0, 0))
  {
    hide RefreshThenMint, ReadEntry, IsAccessToken;
    if disk.session.Some? {
      RefreshThenMintIsSound(w, WithoutLegacy(w, disk), disk.session.value);
    }
  }

  /** A minted token is what the acting user's account, and the origin's default, resolve to afterwards;
      it has the form of an access token and came from the last request. */
  lemma MintedIsStored(w: World, disk: Disk)
    requires Ensure(w, disk).outcome == Minted
    ensures var r := Ensure(w, disk);
            var sub := ActingSub(w, disk.session, r.refreshes);
            var c := Read(r.disk.document);
            && r.requests > 0
            && ReadEntry(c, w.origin, sub).Some?
            && ReadEntry(c, w.origin, "") == ReadEntry(c, w.origin, sub)
            && IsAccessToken(ReadEntry(c, w.origin, sub).value.pat)
            && Ok(ReadEntry(c, w.origin, sub).value.pat) == Parse(w.mint(r.requests - 1))
            && ReadEntry(c, w.origin, sub).value.sub == sub
            && w.origin in c.defaults && c.defaults[w.origin] == AccountKey(sub)
  {
    hide RefreshThenMint, ReadEntry, IsAccessToken, Upserted, AccountKey;
    var r := Ensure(w, disk);
    var before := WithoutLegacy(w, disk);
    RefreshThenMintIsSound(w, before, disk.session.value);
    var g :| Wrote(w, before.document, disk.session, r, g);
    ParsedIsToken(w.mint(r.requests - 1));
    TokenNotEmpty(g.pat);
    MintedTokenResolves(Read(before.document), g, w.now);
  }

  lemma TokenNotEmpty(t: string)
    requires IsAccessToken(t)
    ensures t != ""
  {
  }

  lemma MintedTokenResolves(c: Credentials, g: Grant, now: int)
    requires g.origin != "" && g.pat != ""
    ensures ReadEntry(Upserted(c, g, now), g.origin, g.sub) == Some(EntryOf(g, now))
    ensures ReadEntry(Upserted(c, g, now), g.origin, "") == Some(EntryOf(g, now))
    ensures g.origin in Upserted(c, g, now).defaults && Upserted(c, g, now).defaults[g.origin] == AccountKey(g.sub)
  {
    hide ReadEntry, AccountKey, Put, Find;
    WriteTouchesOnePair(c, g, now, g.origin, "");
  }

  /** Whatever happens, every pair but the account the call was for and the one it minted for keeps its entry. */
  lemma OtherAccountsUntouched(w: World, disk: Disk, o: string, a: string)
    requires WellFormed(Read(disk.document))
    requires var r := Ensure(w, disk);
             !(o == w.origin && a == ResolveAccount(Read(disk.document), w.origin, SubOf(disk.session)))
             && !(o == w.origin && a == AccountKey(ActingSub(w, disk.session, r.refreshes)))
    ensures Lookup(Read(Ensure(w, disk).disk.document), o, a) == Lookup(Read(disk.document), o, a)
  {
    hide RefreshThenMint, IsAccessToken, Upserted, AccountKey, Removed, ReadEntry, Find;
    var r, c := Ensure(w, disk), Read(disk.document);
    var before := WithoutLegacy(w, disk);
    LegacyRemovalKeepsOthers(w, disk, o, a);
    if r.requests > 0 {
      RefreshThenMintIsSound(w, before, disk.session.value);
      if r.outcome == Minted {
        var g :| Wrote(w, before.document, disk.session, r, g);
        UpsertedLookup(Read(before.document), g, w.now, o, a);
      }
    } else if disk.session.Some? {
      RefreshThenMintIsSound(w, before, disk.session.value);
    }
  }

  lemma LegacyRemovalKeepsOthers(w: World, disk: Disk, o: string, a: string)
    requires WellFormed(Read(disk.document))
    requires !(o == w.origin && a == ResolveAccount(Read(disk.document), w.origin, SubOf(disk.session)))
    ensures Lookup(Read(WithoutLegacy(w, disk).document), o, a) == Lookup(Read(disk.document), o, a)
  {
    hide ResolveAccount, AccountKey, WellFormed, IsAccessToken;
    var c := Read(disk.document);
    if IsLegacy(ReadEntry(c, w.origin, SubOf(disk.session))) && w.deletes {
      RemovedLookup(c, w.origin, ResolveAccount(c, w.origin, SubOf(disk.session)), o, a);
    }
  }

  /** The session user's own entry after a preflight that minted: the new one when it was minted for that account,
      and what was there before otherwise. */
  lemma OwnEntryAfterMint(w: World, disk: Disk)
    requires Ensure(w, disk).outcome == Minted && Trim(SubOf(disk.session)) != ""
    ensures var sub, r := SubOf(disk.session), Ensure(w, disk);
            var acting := ActingSub(w, disk.session, r.refreshes);
            var after := ReadEntry(Read(r.disk.document), w.origin, sub);
            if AccountKey(sub) == AccountKey(acting)
            then after.Some? && after.value.sub == acting && IsAccessToken(after.value.pat)
            else after == ReadEntry(Read(WithoutLegacy(w, disk).document), w.origin, sub)
  {
    hide RefreshThenMint, IsAccessToken, Trim, Upserted, Removed, Find;
    var r, before, sub := Ensure(w, disk), WithoutLegacy(w, disk), SubOf(disk.session);
    RefreshThenMintIsSound(w, before, disk.session.value);
    var g :| Wrote(w, before.document, disk.session, r, g);
    ParsedIsToken(w.mint(r.requests - 1));
    UpsertedLookup(Read(before.document), g, w.now, w.origin, AccountKey(sub));
    AccountKeyNotEmpty(sub);
  }

  lemma LegacyRemovalRemoves(w: World, disk: Disk)
    requires WellFormed(Read(disk.document)) && w.deletes && Trim(SubOf(disk.session)) != ""
    ensures !IsLegacy(ReadEntry(Read(WithoutLegacy(w, disk).document), w.origin, SubOf(disk.session)))
  {
    hide IsAccessToken, Trim, WellFormed;
    var c, sub := Read(disk.document), SubOf(disk.session);
    if IsLegacy(ReadEntry(c, w.origin, sub)) {
      RemovedLookup(c, w.origin, AccountKey(sub), w.origin, AccountKey(sub));
    }
  }

  /** A token no gateway accepts is not left behind for a named account, whether or not the mint works, and whomever
      a refresh names. */
  lemma NoLegacyTokenSurvives(w: World, disk: Disk)
    requires WellFormed(Read(disk.document)) && w.deletes && w.hasAuthStorage
    requires Trim(SubOf(disk.session)) != ""
    ensures !IsLegacy(ReadEntry(Read(Ensure(w, disk).disk.document), w.origin, SubOf(disk.session)))
  {
    LegacyRemovalRemoves(w, disk);
    if Ensure(w, disk).outcome == Minted {
      OwnEntryAfterMint(w, disk);
    } else if disk.session.Some? {
      RefreshThenMintIsSound(w, WithoutLegacy(w, disk), disk.session.value);
    }
    hide RefreshThenMint, IsAccessToken, Trim, ReadEntry, Removed, Wrote;
  }

  // ---------------------------------------------------------------- Calling it again

  /** The refresh names this user, or no user. */
  predicate RefreshKeeps(w: World, user: string) {
    w.refresh.Refreshed? && w.refresh.user.Some? ==> w.refresh.user.value.id == user
  }

  lemma MintWithKeepsUser(w: World, disk: Disk, hand: Hand, canRefresh: bool, refreshes: nat)
    requires RefreshKeeps(w, SubOf(disk.session)) && hand.session.userId == SubOf(disk.session)
    ensures SubOf(MintWith(w, disk, hand, canRefresh, refreshes).disk.session) == SubOf(disk.session)
    ensures MintWith(w, disk, hand, canRefresh, refreshes).requests > 0
  {
    hide Attempts, Upserted, IsAccessToken, ReadEntry;
    AttemptsStopAtTheFirstFinalReply(w.mint, 0, 1);
  }

  lemma RefreshThenMintKeepsUser(w: World, disk: Disk, stored: Session)
    requires RefreshKeeps(w, SubOf(disk.session)) && stored.userId == SubOf(disk.session)
    ensures SubOf(RefreshThenMint(w, disk, stored).disk.session) == SubOf(disk.session)
    ensures RefreshThenMint(w, disk, stored).requests > 0
  {
    hide MintWith;
    var canRefresh := w.refreshConfigured && stored.refreshToken != "";
    var hand := Hand(stored, stored.userId, false);
    MintWithKeepsUser(w, disk, hand, canRefresh, 0);
    MintWithKeepsUser(w, disk, hand.(spent := true), canRefresh, 1);
    var next := Refresh(stored, w.refresh, w.now);
    if next.Some? {
      MintWithKeepsUser(w, Persist(w, disk, next.value), TakeOver(hand, next.value), canRefresh, 1);
    }
  }

  /** The session a mint leaves is the one it started from, one the refresh named the acting user in, or one without
      a user. */
  lemma MintWithLeavesSession(w: World, disk: Disk, stored: Session, hand: Hand, canRefresh: bool, refreshes: nat)
    requires hand.sub == ActingSub(w, Some(stored), refreshes) && (hand.spent <==> refreshes == 1) && refreshes <= 1
    requires SubOf(disk.session) in {stored.userId, "", hand.sub} && (refreshes == 0 ==> hand.session == stored)
    ensures var r := MintWith(w, disk, hand, canRefresh, refreshes);
            SubOf(r.disk.session) in {stored.userId, "", ActingSub(w, Some(stored), r.refreshes)}
            || r.outcome != Minted
  {
    hide Attempts, Upserted, IsAccessToken, ReadEntry, IsRetryable;
  }

  lemma MintLeavesSession(w: World, disk: Disk)
    requires Ensure(w, disk).outcome == Minted
    ensures var r := Ensure(w, disk);
            SubOf(r.disk.session) in {SubOf(disk.session), "", ActingSub(w, disk.session, r.refreshes)}
  {
    hide MintWith, IsAccessToken, ReadEntry, Removed;
    var stored, before := disk.session.value, WithoutLegacy(w, disk);
    var canRefresh := w.refreshConfigured && stored.refreshToken != "";
    var hand := Hand(stored, stored.userId, false);
    var next := Refresh(stored, w.refresh, w.now);
    if !(canRefresh && NeedsRefresh(stored, w.nowMs)) {
      MintWithLeavesSession(w, before, stored, hand, canRefresh, 0);
    } else if next.None? {
      MintWithLeavesSession(w, before, stored, hand.(spent := true), canRefresh, 1);
    } else {
      MintWithLeavesSession(w, Persist(w, before, next.value), stored, TakeOver(hand, next.value), canRefresh, 1);
    }
  }

  /** The entry a mint did not replace was not current before it: no name is twice in one origin's object. */
  lemma OldEntryIsNotCurrent(w: World, disk: Disk)
    requires Ensure(w, disk).outcome == Minted && Trim(SubOf(disk.session)) != ""
    requires Distinct(AccountsAt(Read(disk.document), w.origin))
    ensures !IsCurrent(ReadEntry(Read(WithoutLegacy(w, disk).document), w.origin, SubOf(disk.session)),
                       SubOf(disk.session))
  {
    hide IsAccessToken, Trim, RefreshThenMint, Find;
    var c, sub := Read(disk.document), SubOf(disk.session);
    if IsLegacy(ReadEntry(c, w.origin, sub)) {
      DropFinds(AccountsAt(c, w.origin), AccountKey(sub), AccountKey(sub));
    }
  }

  lemma BlankMeansDefault(c: Credentials, origin: string, sub: string)
    requires Trim(sub) == ""
    ensures ReadEntry(c, origin, sub) == ReadEntry(c, origin, "")
  {
    TrimNothing();
    hide Trim;
  }

  /** After a mint, calling again finds the store current, asks nothing and changes nothing, if and only if the session
      then on disk names the user the token was minted for. */
  lemma MintConvergesExactly(w: World, disk: Disk, again: World)
    requires Ensure(w, disk).outcome == Minted
    requires Distinct(AccountsAt(Read(disk.document), w.origin))
    requires again.hasAuthStorage && again.origin == w.origin
    ensures var r := Ensure(w, disk);
            var user := SubOf(r.disk.session);
            && (user != "" && user == ActingSub(w, disk.session, r.refreshes)
                <==> Ensure(again, r.disk).outcome == AlreadyCurrent)
            && (Ensure(again, r.disk).outcome == AlreadyCurrent ==>
                  Ensure(again, r.disk) == Report(AlreadyCurrent, r.disk, 0, 0))
  {
    MintedIsStored(w, disk);
    MintLeavesSession(w, disk);
    var r := Ensure(w, disk);
    var user, acting, c := SubOf(r.disk.session), ActingSub(w, disk.session, r.refreshes), Read(r.disk.document);
    OnlyCurrentIsAlreadyCurrent(again, r.disk);
    if user != "" && user != acting {
      if Trim(user) == "" {
        BlankMeansDefault(c, w.origin, user);
      } else {
        OwnEntryAfterMint(w, disk);
        OldEntryIsNotCurrent(w, disk);
      }
    }
    hide Ensure, ReadEntry, IsAccessToken, AccountKey, Trim;
  }

  lemma OnlyCurrentIsAlreadyCurrent(w: World, disk: Disk)
    requires w.hasAuthStorage && w.origin != ""
    ensures Ensure(w, disk).outcome == AlreadyCurrent
            <==> IsCurrent(ReadEntry(Read(disk.document), w.origin, SubOf(disk.session)), SubOf(disk.session))
    ensures Ensure(w, disk).outcome == AlreadyCurrent ==> Ensure(w, disk) == Report(AlreadyCurrent, disk, 0, 0)
  {
    hide RefreshThenMint, ReadEntry, IsAccessToken;
    if disk.session.Some? {
      RefreshThenMintIsSound(w, WithoutLegacy(w, disk), disk.session.value);
    }
  }

  /** After a mint for a session with a user id that the refresh keeps, calling again asks for nothing. */
  lemma MintConverges(w: World, disk: Disk, again: World)
    requires Ensure(w, disk).outcome == Minted
    requires SubOf(disk.session) != ""
    requires RefreshKeeps(w, SubOf(disk.session))
    requires again.hasAuthStorage && again.origin == w.origin
    ensures Ensure(again, Ensure(w, disk).disk) == Report(AlreadyCurrent, Ensure(w, disk).disk, 0, 0)
  {
    hide RefreshThenMint, ReadEntry, IsAccessToken, AccountKey;
    MintedIsStored(w, disk);
    RefreshThenMintKeepsUser(w, WithoutLegacy(w, disk), disk.session.value);
  }

  /** Without a user id on the stored session there is no convergence: every call asks again. */
  lemma AnonymousSessionNeverConverges(w: World, disk: Disk)
    requires SubOf(disk.session) == ""
    ensures Ensure(w, disk).outcome != AlreadyCurrent
    ensures (w.hasAuthStorage && w.origin != "" && w.deletes && TokenOf(disk.session) != "" && RefreshKeeps(w, "")) ==>
              Ensure(w, disk).requests > 0
  {
    hide ReadEntry, IsAccessToken, RefreshThenMint;
    if disk.session.Some? {
      RefreshThenMintIsSound(w, WithoutLegacy(w, disk), disk.session.value);
      if RefreshKeeps(w, "") {
        RefreshThenMintKeepsUser(w, WithoutLegacy(w, disk), disk.session.value);
      }
    }
  }
}
