/** When the preflight mints and when it refreshes, told from the answers it gets: which replies are tried again, which
    reply is the last one, and what is on disk for each way it can go. */
module MintDecisions {
  import opened Wrappers
  import opened Text
  import opened DaemonStore
  import opened DaemonMint

  // ---------------------------------------------------------------- One reply

  /** "rlat_" and 32 letters or digits. */
  predicate WellShaped(token: string) {
    && |token| == 37
    && token[0] == 'r' && token[1] == 'l' && token[2] == 'a' && token[3] == 't' && token[4] == '_'
    && forall i | 5 <= i < 37 :: '0' <= token[i] <= '9' || 'a' <= token[i] <= 'z' || 'A' <= token[i] <= 'Z'
  }

  predicate Grants(reply: MintReply) {
    reply.Answered? && WellShaped(reply.token)
  }

  predicate Denies(reply: MintReply) {
    reply.Failed? && reply.error.status == Some(401)
  }

  /** The failure is one of these, by its code, by its cause's when it has none, or in the words of its message. */
  predicate Mentions(e: MintError, fault: string) {
    e.code == fault || (e.code == "" && e.causeCode == fault) || Contains(e.message, fault)
  }

  /** The server was being restarted, or was not reached. */
  predicate Passing(e: MintError) {
    && !e.terminal
    && match e.status
       case Some(status) => 502 <= status <= 504
       case None =>
         || e.name == "TimeoutError"
         || (&& e.name != "AbortError"
             && (|| Mentions(e, "ECONNREFUSED") || Mentions(e, "ECONNRESET") || Mentions(e, "ETIMEDOUT")
                 || Mentions(e, "EAI_AGAIN") || Mentions(e, "ENETUNREACH") || Mentions(e, "EHOSTUNREACH")
                 || Mentions(e, "EPIPE")))
  }

  predicate TriedAgain(reply: MintReply) {
    reply.Failed? && Passing(reply.error)
  }

  lemma ShapeIsTheFormat(token: string)
    ensures IsAccessToken(token) <==> WellShaped(token)
  {
    if |token| == 37 {
      assert token[..5] == "rlat_" <==> token[0] == 'r' && token[1] == 'l' && token[2] == 'a' && token[3] == 't'
                                        && token[4] == '_';
    }
  }

  lemma FaultIsRetryable(e: MintError, i: nat)
    requires i < |RETRYABLE_CODES| && Mentions(e, RETRYABLE_CODES[i])
    requires !e.terminal && e.status.None? && e.name != "AbortError"
    ensures IsRetryable(e)
  {
    assert RETRYABLE_CODES[i] in RETRYABLE_CODES;
  }

  /** A failure is worth another request exactly when it is one of those. */
  lemma RetriesExactlyPassing(e: MintError)
    ensures IsRetryable(e) <==> Passing(e)
  {
    if !e.terminal && e.status.None? && e.name != "AbortError" && e.name != "TimeoutError" {
      if IsRetryable(e) {
        var i: nat :| i < |RETRYABLE_CODES| && Mentions(e, RETRYABLE_CODES[i]);
        FaultIsNamed(e, i);
      }
      if Passing(e) {
        var i := NamedFault(e);
        FaultIsRetryable(e, i);
      }
    }
  }

  lemma FaultIsNamed(e: MintError, i: nat)
    requires i < |RETRYABLE_CODES| && Mentions(e, RETRYABLE_CODES[i])
    requires !e.terminal && e.status.None? && e.name != "AbortError"
    ensures Passing(e)
  {
    hide Mentions, Contains;
  }

  lemma NamedFault(e: MintError) returns (i: nat)
    requires Passing(e) && e.status.None? && e.name != "TimeoutError"
    ensures i < |RETRYABLE_CODES| && Mentions(e, RETRYABLE_CODES[i])
  {
    hide Mentions, Contains;
    i := if Mentions(e, "ECONNREFUSED") then 0
         else if Mentions(e, "ECONNRESET") then 1
         else if Mentions(e, "ETIMEDOUT") then 2
         else if Mentions(e, "EAI_AGAIN") then 3
         else if Mentions(e, "ENETUNREACH") then 4
         else if Mentions(e, "EHOSTUNREACH") then 5
         else 6;
  }

  lemma ReplyParses(reply: MintReply)
    ensures Parse(reply).Ok? <==> Grants(reply)
    ensures Grants(reply) ==> Parse(reply) == Ok(reply.token)
    ensures Parse(reply).Err? ==>
              && (IsRetryable(Parse(reply).error) <==> TriedAgain(reply))
              && (Parse(reply).error.status == Some(401) <==> Denies(reply))
  {
    match reply
    case Answered(token) => ShapeIsTheFormat(token); hide IsAccessToken, WellShaped;
    case Failed(e) => RetriesExactlyPassing(e); hide IsRetryable, Passing;
  }

  // ---------------------------------------------------------------- One run of requests

  /** How many requests a mint makes that starts with this one: up to three, while the answer is a passing failure. */
  function Requests(replies: nat -> MintReply, first: nat): nat {
    if !TriedAgain(replies(first)) then 1 else if !TriedAgain(replies(first + 1)) then 2 else 3
  }

  function LastReply(replies: nat -> MintReply, first: nat): MintReply {
    replies(first + Requests(replies, first) - 1)
  }

  lemma MintMakesRequests(replies: nat -> MintReply, first: nat)
    ensures Attempts(replies, first, 1) == MintRun(Parse(LastReply(replies, first)), Requests(replies, first))
  {
    ReplyParses(replies(first));
    ReplyParses(replies(first + 1));
    ReplyParses(replies(first + 2));
    hide Parse, IsRetryable, TriedAgain, Grants, Denies;
    assert Attempts(replies, first + 2, 3).requests == 1;
    if TriedAgain(replies(first)) {
      assert Attempts(replies, first, 1).requests == 1 + Attempts(replies, first + 1, 2).requests;
    }
  }

  // ---------------------------------------------------------------- The way a preflight goes

  predicate Refreshable(w: World, s: Session) {
    w.refreshConfigured && s.refreshToken != ""
  }

  /** The token expires within the minute, as far as the session says. */
  predicate Stale(w: World, s: Session) {
    s.expiresAt > 0 && w.nowMs >= (s.expiresAt - 60) * 1000
  }

  /** The refresh endpoint has a token to give. */
  predicate Renews(w: World) {
    w.refresh.Refreshed? && w.refresh.accessToken != ""
  }

  /** Refreshed before the first request, because the token is stale, or after the first run was denied. */
  predicate Refreshes(w: World, s: Session) {
    Refreshable(w, s) && (Stale(w, s) || Denies(LastReply(w.mint, 0)))
  }

  /** A second run of requests, with the token that a denial was refreshed to. */
  predicate MintsAgain(w: World, s: Session) {
    Refreshable(w, s) && !Stale(w, s) && Denies(LastReply(w.mint, 0)) && Renews(w)
  }

  function DecidingReply(w: World, s: Session): MintReply {
    LastReply(w.mint, if MintsAgain(w, s) then Requests(w.mint, 0) else 0)
  }

  /** What the endpoint sent, with what it left out carried forward. */
  ghost predicate IsRenewed(w: World, s: Session, next: Session) {
    && w.refresh.Refreshed?
    && next.accessToken == w.refresh.accessToken
    && (w.refresh.refreshToken != "" ==> next.refreshToken == w.refresh.refreshToken)
    && (w.refresh.refreshToken == "" ==> next.refreshToken == s.refreshToken)
    && (w.refresh.expiresAt > 0 ==> next.expiresAt == w.refresh.expiresAt)
    && (w.refresh.expiresAt <= 0 && w.refresh.expiresIn > 0 ==> next.expiresAt == w.now + w.refresh.expiresIn)
    && (w.refresh.expiresAt <= 0 && w.refresh.expiresIn <= 0 ==> next.expiresAt == s.expiresAt)
    && (w.refresh.user.Some? ==> User(next.userId, next.email) == w.refresh.user.value)
    && (w.refresh.user.None? ==> next.userId == s.userId && next.email == s.email)
  }

  lemma RefreshRenews(w: World, s: Session)
    ensures Refresh(s, w.refresh, w.now).Some? <==> Renews(w)
    ensures Renews(w) ==> IsRenewed(w, s, Refresh(s, w.refresh, w.now).value)
  {
  }

  lemma StaleNeedsRefresh(w: World, s: Session)
    ensures NeedsRefresh(s, w.nowMs) <==> Stale(w, s)
  {
  }

  /** The session the mint is made with. */
  ghost predicate MintsAs(w: World, s: Session, used: Session) {
    if Refreshes(w, s) && Renews(w) then IsRenewed(w, s, used) else used == s
  }

  /** Whom the token is for: a refresh that names a user names them too. */
  function MintedFor(s: Session, used: Session): string {
    if used.userId != "" then used.userId else s.userId
  }

  ghost predicate Decided(w: World, disk: Disk, s: Session, used: Session, r: Report) {
    var reply := DecidingReply(w, s);
    && MintsAs(w, s, used)
    && r.refreshes == (if Refreshes(w, s) then 1 else 0)
    && r.requests == Requests(w.mint, 0) + (if MintsAgain(w, s) then Requests(w.mint, Requests(w.mint, 0)) else 0)
    && r.outcome == (if Grants(reply) && w.writes then Minted else EnsureFailed)
    && r.disk.session == (if Refreshes(w, s) && Renews(w) && w.saves then Some(used) else disk.session)
    && r.disk.document
       == if Grants(reply) && w.writes
          then Stored(Upserted(Read(disk.document),
                               Grant(w.origin, w.serverUrl, w.gatewayUrl, reply.token, MintedFor(s, used), used.email),
                               w.now))
          else disk.document
  }

  lemma FirstMint(w: World, disk: Disk, hand: Hand, canRefresh: bool, refreshes: nat)
    requires w.origin != "" && (hand.spent || !canRefresh || !Denies(LastReply(w.mint, 0)))
    ensures MintWith(w, disk, hand, canRefresh, refreshes)
            == var reply := LastReply(w.mint, 0);
               if Grants(reply) then WriteDown(w, disk, hand, reply.token, Requests(w.mint, 0), refreshes)
               else Report(EnsureFailed, disk, Requests(w.mint, 0), refreshes)
  {
    hide Attempts, LastReply, Requests, Grants, Denies, WriteDown, Refresh;
    MintMakesRequests(w.mint, 0);
    ReplyParses(LastReply(w.mint, 0));
    hide Parse, IsRetryable, TriedAgain;
  }

  lemma SecondMint(w: World, disk: Disk, hand: Hand, refreshes: nat)
    requires w.origin != "" && !hand.spent && Denies(LastReply(w.mint, 0))
    ensures var n := Requests(w.mint, 0);
            var next, reply := Refresh(hand.session, w.refresh, w.now), LastReply(w.mint, n);
            MintWith(w, disk, hand, true, refreshes)
            == if next.None? then Report(EnsureFailed, disk, n, refreshes + 1)
               else if Grants(reply) then
                 WriteDown(w, Persist(w, disk, next.value), TakeOver(hand, next.value), reply.token,
                           n + Requests(w.mint, n), refreshes + 1)
               else Report(EnsureFailed, Persist(w, disk, next.value), n + Requests(w.mint, n), refreshes + 1)
  {
    hide Attempts, LastReply, Requests, Grants, WriteDown, Refresh, Persist, TakeOver;
    MintMakesRequests(w.mint, 0);
    MintMakesRequests(w.mint, Requests(w.mint, 0));
    ReplyParses(LastReply(w.mint, 0));
    ReplyParses(LastReply(w.mint, Requests(w.mint, 0)));
    DeniedIsNotGranted(LastReply(w.mint, 0));
    hide Parse, IsRetryable, TriedAgain, Denies;
  }

  lemma DeniedIsNotGranted(reply: MintReply)
    ensures Denies(reply) ==> !Grants(reply)
  {
  }

  lemma GrantedIsNotEmpty(reply: MintReply)
    ensures Grants(reply) ==> reply.token != ""
  {
  }

  lemma PreflightIsDecided(w: World, disk: Disk, s: Session) returns (used: Session)
    requires w.origin != ""
    ensures Decided(w, disk, s, used, RefreshThenMint(w, disk, s))
  {
    hide Requests, LastReply, Denies, Grants, MintWith, Upserted, Refresh, IsRenewed, NeedsRefresh, Stale, Renews;
    RefreshRenews(w, s);
    StaleNeedsRefresh(w, s);
    GrantedIsNotEmpty(DecidingReply(w, s));
    DeniedIsNotGranted(LastReply(w.mint, 0));
    var next := Refresh(s, w.refresh, w.now);
    var hand := Hand(s, s.userId, false);
    used := if Refreshes(w, s) && Renews(w) then next.value else s;
    if Refreshable(w, s) && Stale(w, s) {
      if next.None? {
        FirstMint(w, disk, hand.(spent := true), true, 1);
      } else {
        FirstMint(w, Persist(w, disk, next.value), TakeOver(hand, next.value), true, 1);
      }
    } else if Refreshes(w, s) {
      SecondMint(w, disk, hand, 0);
    } else {
      FirstMint(w, disk, hand, Refreshable(w, s), 0);
    }
  }

  // ---------------------------------------------------------------- Every preflight

  /** What the file has for the session's user at the start. */
  function Known(w: World, disk: Disk): Option<Entry> {
    ReadEntry(Read(disk.document), w.origin, SubOf(disk.session))
  }

  predicate HoldsCurrent(w: World, disk: Disk) {
    var known := Known(w, disk);
    known.Some? && WellShaped(known.value.pat) && known.value.sub != "" && known.value.sub == SubOf(disk.session)
  }

  predicate HoldsOutdated(w: World, disk: Disk) {
    var known := Known(w, disk);
    known.Some? && known.value.pat != "" && !WellShaped(known.value.pat)
  }

  /** An outdated token in the way that cannot be removed. */
  predicate Stuck(w: World, disk: Disk) {
    HoldsOutdated(w, disk) && !w.deletes
  }

  predicate Asks(w: World, disk: Disk) {
    && w.hasAuthStorage && w.origin != "" && !HoldsCurrent(w, disk) && !Stuck(w, disk)
    && disk.session.Some? && disk.session.value.accessToken != ""
  }

  lemma KnownIsClassified(w: World, disk: Disk)
    ensures IsCurrent(Known(w, disk), SubOf(disk.session)) <==> HoldsCurrent(w, disk)
    ensures IsLegacy(Known(w, disk)) <==> HoldsOutdated(w, disk)
  {
    hide WellShaped, IsAccessToken, ReadEntry;
    if Known(w, disk).Some? {
      ShapeIsTheFormat(Known(w, disk).value.pat);
    }
  }

  lemma AskingIsDecided(w: World, disk: Disk) returns (used: Session)
    requires Asks(w, disk)
    ensures Ensure(w, disk) == RefreshThenMint(w, WithoutLegacy(w, disk), disk.session.value)
    ensures Decided(w, WithoutLegacy(w, disk), disk.session.value, used, Ensure(w, disk))
    ensures WithoutLegacy(w, disk).session == disk.session
  {
    hide RefreshThenMint, IsCurrent, IsLegacy, HoldsCurrent, HoldsOutdated, ReadEntry, Decided, Removed, ResolveAccount;
    KnownIsClassified(w, disk);
    used := PreflightIsDecided(w, WithoutLegacy(w, disk), disk.session.value);
  }

  /** A preflight that does not ask says why, and touches no session. */
  lemma IdleOutcomes(w: World, disk: Disk)
    ensures Ensure(w, disk).outcome == Unavailable <==> !w.hasAuthStorage || w.origin == ""
    ensures Ensure(w, disk).outcome == AlreadyCurrent
            <==> w.hasAuthStorage && w.origin != "" && HoldsCurrent(w, disk)
    ensures Ensure(w, disk).outcome == NoSession
            <==> && w.hasAuthStorage && w.origin != "" && !HoldsCurrent(w, disk) && !Stuck(w, disk)
                 && (disk.session.Some? ==> disk.session.value.accessToken == "")
    ensures !Asks(w, disk) ==>
              && Ensure(w, disk).requests == 0 && Ensure(w, disk).refreshes == 0
              && Ensure(w, disk).disk.session == disk.session
  {
    if Asks(w, disk) {
      var used := AskingIsDecided(w, disk);
      hide Ensure;
    } else {
      hide RefreshThenMint, IsCurrent, IsLegacy, HoldsCurrent, HoldsOutdated, ReadEntry, Removed, ResolveAccount;
      KnownIsClassified(w, disk);
    }
  }

  /** The session is refreshed, once, if and only if that is configured and possible and either the token is about to
      expire or the first run of requests ended in a 401. */
  lemma RefreshesExactly(w: World, disk: Disk)
    ensures Ensure(w, disk).refreshes
            == if Asks(w, disk) && Refreshes(w, disk.session.value) then 1 else 0
  {
    IdleOutcomes(w, disk);
    hide Ensure, Refreshes, Asks, MintsAs;
    if Asks(w, disk) {
      var used := AskingIsDecided(w, disk);
    }
  }

  /** A token is minted if and only if the preflight asks, the last reply of the run that decides is a token, and the
      file can be written; it makes the requests of the first run, and of the second where there is one. */
  lemma MintsExactly(w: World, disk: Disk)
    ensures Ensure(w, disk).outcome == Minted
            <==> Asks(w, disk) && Grants(DecidingReply(w, disk.session.value)) && w.writes
    ensures Asks(w, disk) ==>
              Ensure(w, disk).requests
              == Requests(w.mint, 0)
                 + if MintsAgain(w, disk.session.value) then Requests(w.mint, Requests(w.mint, 0)) else 0
  {
    IdleOutcomes(w, disk);
    NotMintedWhenIdle(w, disk);
    hide Ensure, MintsAgain, DecidingReply, Grants, Asks, MintsAs;
    if Asks(w, disk) {
      var used := AskingIsDecided(w, disk);
    }
  }

  lemma NotMintedWhenIdle(w: World, disk: Disk)
    ensures Ensure(w, disk).outcome == Minted ==> Asks(w, disk)
  {
    hide RefreshThenMint, IsCurrent, IsLegacy, HoldsCurrent, HoldsOutdated, ReadEntry, Removed, ResolveAccount;
    KnownIsClassified(w, disk);
  }

  /** What is stored afterwards: the renewed session if there is one and it can be saved, and after a mint an entry for
      its user, or the session's, with the deciding token and the addresses asked for. */
  lemma StoredExactly(w: World, disk: Disk) returns (used: Session)
    requires Asks(w, disk)
    ensures MintsAs(w, disk.session.value, used)
    ensures Ensure(w, disk).disk.session
            == if Refreshes(w, disk.session.value) && Renews(w) && w.saves then Some(used) else disk.session
    ensures Ensure(w, disk).outcome == Minted ==>
              var sub := MintedFor(disk.session.value, used);
              && DecidingReply(w, disk.session.value).Answered?
              && ReadEntry(Read(Ensure(w, disk).disk.document), w.origin, sub)
                 == Some(Entry(DecidingReply(w, disk.session.value).token, w.serverUrl, w.gatewayUrl, w.now,
                               sub, sub, used.email))
  {
    MintsExactly(w, disk);
    hide Ensure, MintsAs, Upserted, ReadEntry, MintedFor, Refreshes, DecidingReply, WellShaped;
    used := AskingIsDecided(w, disk);
    if Ensure(w, disk).outcome == Minted {
      var sub, reply := MintedFor(disk.session.value, used), DecidingReply(w, disk.session.value);
      GrantedIsNotEmpty(reply);
      MintedTokenResolves(Read(WithoutLegacy(w, disk).document),
                          Grant(w.origin, w.serverUrl, w.gatewayUrl, reply.token, sub, used.email), w.now);
    }
  }

  /** Every entry of the file afterwards: the minted one, nothing where an outdated one was, and else what was there. */
  lemma EntriesExactly(w: World, disk: Disk, o: string, a: string)
    requires WellFormed(Read(disk.document))
    ensures var c, after := Read(disk.document), Read(Ensure(w, disk).disk.document);
            var account := ResolveAccount(c, w.origin, SubOf(disk.session));
            var minted := Ensure(w, disk).outcome == Minted;
            var sub := ActingSub(w, disk.session, Ensure(w, disk).refreshes);
            Lookup(after, o, a)
            == if minted && o == w.origin && a == AccountKey(sub) then ReadEntry(after, w.origin, sub)
               else if w.hasAuthStorage && w.origin != "" && HoldsOutdated(w, disk) && w.deletes
                       && o == w.origin && a == account then None
               else Lookup(c, o, a)
  {
    KnownIsClassified(w, disk);
    LegacyEntry(w, disk, o, a);
    hide RefreshThenMint, IsCurrent, IsLegacy, HoldsCurrent, HoldsOutdated, Removed, ResolveAccount, Upserted,
         ReadEntry, WithoutLegacy, Find, AccountKey, IsAccessToken;
    var r, before := Ensure(w, disk), WithoutLegacy(w, disk);
    if r.requests > 0 || r.outcome == Minted {
      RefreshThenMintIsSound(w, before, disk.session.value);
      if r.outcome == Minted {
        var g :| Wrote(w, before.document, disk.session, r, g);
        UpsertedLookup(Read(before.document), g, w.now, o, a);
        ParsedIsToken(w.mint(r.requests - 1));
        TokenNotEmpty(g.pat);
        MintedTokenResolves(Read(before.document), g, w.now);
      }
    } else if disk.session.Some? {
      RefreshThenMintIsSound(w, before, disk.session.value);
    }
  }

  lemma LegacyEntry(w: World, disk: Disk, o: string, a: string)
    requires WellFormed(Read(disk.document))
    ensures var c := Read(disk.document);
            var account := ResolveAccount(c, w.origin, SubOf(disk.session));
            Lookup(Read(WithoutLegacy(w, disk).document), o, a)
            == if HoldsOutdated(w, disk) && w.deletes && o == w.origin && a == account then None else Lookup(c, o, a)
  {
    KnownIsClassified(w, disk);
    hide WellFormed, HoldsOutdated, IsLegacy, Trim, AccountKey;
    var c := Read(disk.document);
    if HoldsOutdated(w, disk) && w.deletes {
      KnownMeansAccount(w, disk);
      RemovedLookup(c, w.origin, ResolveAccount(c, w.origin, SubOf(disk.session)), o, a);
    }
  }

  lemma KnownMeansAccount(w: World, disk: Disk)
    requires HoldsOutdated(w, disk)
    ensures var c := Read(disk.document);
            Lookup(c, w.origin, ResolveAccount(c, w.origin, SubOf(disk.session))).Some?
  {
    hide ResolveAccount, WellShaped;
  }
}
