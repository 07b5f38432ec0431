/** The introspection cache: lookup, remote call and store are separate steps of each call, and calls
    overlap freely. */
module IntrospectionCache {
  import opened Wrappers

  /** Milliseconds. */
  const CACHE_TTL := 5000
  const SWEEP_ABOVE := 10000

  datatype Answer = Active(principal: string) | Inactive | TransportError

  datatype CacheEntry = CacheEntry(answer: Answer, expires: int)

  /** Keyed by the token's hash. */
  type Cache = map<string, CacheEntry>

  /** The cached answer for a lookup whose clock reads `now`. */
  function Fresh(cache: Cache, key: string, now: int): Option<Answer> {
    if key in cache && now < cache[key].expires then Some(cache[key].answer) else None
  }

  function Swept(cache: Cache, now: int): Cache {
    map k | k in cache && now < cache[k].expires :: cache[k]
  }

  function Remembered(cache: Cache, key: string, answer: Answer, lookedUpAt: int, now: int): Cache {
    if answer.TransportError? then cache
    else (if |cache| > SWEEP_ABOVE then Swept(cache, now) else cache)[key := CacheEntry(answer, lookedUpAt + CACHE_TTL)]
  }

  class CachedIntrospector {
    var cache: Cache

    constructor ()
      ensures cache == map[]
    {
      cache := map[];
    }

    method Store(key: string, entry: CacheEntry, now: int)
      modifies this
      ensures cache == (if |old(cache)| > SWEEP_ABOVE then Swept(old(cache), now) else old(cache))[key := entry]
    {
      if |cache| > SWEEP_ABOVE {
        ghost var before := cache;
        var left := cache.Keys;
        while left != {}
          invariant left <= before.Keys
          invariant cache == map k | k in before && (k in left || now < before[k].expires) :: before[k]
          decreases |left|
        {
          var k :| k in left;
          if k in cache && now >= cache[k].expires {
            cache := cache - {k};
          }
          left := left - {k};
        }
      }
      cache := cache[key := entry];
    }

    /** One call from start to finish, when no other call comes between: `now` is read at the start, `later`
        when the answer is stored, and `inner` is what the remote call would answer. */
    method Introspect(key: string, now: int, inner: Answer, later: int) returns (answer: Answer, asked: bool)
      modifies this
      ensures asked <==> Fresh(old(cache), key, now).None?
      ensures answer == if asked then inner else Fresh(old(cache), key, now).value
      ensures cache == if asked then Remembered(old(cache), key, inner, now, later) else old(cache)
      ensures !asked || inner.TransportError? ==> cache == old(cache)
      ensures asked && !inner.TransportError? ==>
                forall n :: Fresh(cache, key, n) == if n < now + 5000 then Some(inner) else None
      ensures forall k, n | k != key && n >= later :: Fresh(cache, k, n) == Fresh(old(cache), k, n)
    {
      if key in cache && now < cache[key].expires {
        return cache[key].answer, false;
      }
      match inner {
        case Inactive => Store(key, CacheEntry(Inactive, now + CACHE_TTL), later);
        case Active(p) => Store(key, CacheEntry(Active(p), now + CACHE_TTL), later);
        case TransportError =>
      }
      return inner, true;
    }
  }

  // ---------------------------------------------------------------- The sweep

  /** A sweep changes the answer of no lookup made at or after its own time. */
  lemma SweepIsInvisible(cache: Cache, sweptAt: int, key: string, now: int)
    requires sweptAt <= now
    ensures Fresh(Swept(cache, sweptAt), key, now) == Fresh(cache, key, now)
  {
  }

  // ---------------------------------------------------------------- Overlapping calls

  /** A call reads its clock, looks up, asks the remote side and stores what it was told. */
  datatype Call =
    | Timed(key: string, at: int)
    | Asking(key: string, at: int)
    | Told(key: string, at: int, answer: Answer)
    | Returned

  /** What the remote side answered, and when. */
  datatype Given = Given(key: string, answer: Answer, at: int)

  /** A call answered from the cache: what it was told, and the clock it looked up with. */
  datatype Served = Served(key: string, answer: Answer, at: int)

  datatype State = State(now: int, cache: Cache, calls: map<nat, Call>, given: set<Given>, served: set<Served>)

  const INITIAL := State(0, map[], map[], {}, {})

  datatype Event =
    | Tick(to: int)
    | Begin(c: nat, key: string)
    | LookUp(c: nat)
    | Reply(c: nat, answer: Answer)
    | Finish(c: nat)

  predicate Enabled(s: State, e: Event) {
    match e
    case Tick(to) => to >= s.now
    case Begin(c, _) => c !in s.calls
    case LookUp(c) => c in s.calls && s.calls[c].Timed?
    case Reply(c, _) => c in s.calls && s.calls[c].Asking?
    case Finish(c) => c in s.calls && s.calls[c].Told?
  }

  function Apply(s: State, e: Event): State
    requires Enabled(s, e)
  {
    match e
    case Tick(to) => s.(now := to)
    case Begin(c, key) => s.(calls := s.calls[c := Timed(key, s.now)])
    case LookUp(c) =>
      var Timed(key, at) := s.calls[c];
      var hit := Fresh(s.cache, key, at);
      if hit.Some? then s.(calls := s.calls[c := Returned], served := s.served + {Served(key, hit.value, at)})
      else s.(calls := s.calls[c := Asking(key, at)])
    case Reply(c, answer) =>
      s.(calls := s.calls[c := Told(s.calls[c].key, s.calls[c].at, answer)],
         given := s.given + {Given(s.calls[c].key, answer, s.now)})
    case Finish(c) =>
      var Told(key, at, answer) := s.calls[c];
      s.(calls := s.calls[c := Returned], cache := Remembered(s.cache, key, answer, at, s.now))
  }

  function Run(events: seq<Event>): Option<State> {
    if events == [] then Some(INITIAL) else
    match Run(events[..|events| - 1])
    case None => None
    case Some(s) => if Enabled(s, events[|events| - 1]) then Some(Apply(s, events[|events| - 1])) else None
  }

  /** The remote side gave this answer for the key, at a time the expiry still counts from. */
  ghost predicate Backed(given: set<Given>, key: string, answer: Answer, expires: int) {
    exists g :: g in given && g.key == key && g.answer == answer && expires <= g.at + CACHE_TTL
  }

  ghost predicate Honest(s: State) {
    && (forall g | g in s.given :: g.at <= s.now)
    && (forall c | c in s.calls ::
          match s.calls[c]
          case Timed(_, at) => at <= s.now
          case Asking(_, at) => at <= s.now
          case Told(key, at, answer) => at <= s.now && Backed(s.given, key, answer, at + CACHE_TTL)
          case Returned => true)
    && (forall k | k in s.cache ::
          !s.cache[k].answer.TransportError? && Backed(s.given, k, s.cache[k].answer, s.cache[k].expires))
    && (forall v | v in s.served :: !v.answer.TransportError? && Backed(s.given, v.key, v.answer, v.at + 1))
  }

  lemma BackingGrows(given: set<Given>, more: set<Given>, key: string, answer: Answer, expires: int)
    requires given <= more && Backed(given, key, answer, expires)
    ensures Backed(more, key, answer, expires)
  {
    var g :| g in given && g.key == key && g.answer == answer && expires <= g.at + CACHE_TTL;
    assert g in more;
  }

  lemma ReplyIsHonest(s: State, c: nat, answer: Answer)
    requires Honest(s) && Enabled(s, Reply(c, answer))
    ensures Honest(Apply(s, Reply(c, answer)))
  {
    hide Backed;
    var after := Apply(s, Reply(c, answer));
    var g := Given(s.calls[c].key, answer, s.now);
    assert Backed(after.given, g.key, answer, s.calls[c].at + CACHE_TTL) by {
      NewlyBacked(after.given, g, s.calls[c].at);
    }
    forall key, a, expires | Backed(s.given, key, a, expires) ensures Backed(after.given, key, a, expires) {
      BackingGrows(s.given, after.given, key, a, expires);
    }
  }

  lemma NewlyBacked(given: set<Given>, g: Given, at: int)
    requires g in given && at <= g.at
    ensures Backed(given, g.key, g.answer, at + CACHE_TTL)
  {
  }

  lemma LookUpIsHonest(s: State, c: nat)
    requires Honest(s) && Enabled(s, LookUp(c))
    ensures Honest(Apply(s, LookUp(c)))
  {
    var Timed(key, at) := s.calls[c];
    if Fresh(s.cache, key, at).Some? {
      assert Backed(s.given, key, s.cache[key].answer, s.cache[key].expires);
      assert Backed(s.given, key, s.cache[key].answer, at + 1);
    }
  }

  lemma StepIsHonest(s: State, e: Event)
    requires Honest(s) && Enabled(s, e)
    ensures Honest(Apply(s, e))
  {
    match e
    case Reply(c, answer) => ReplyIsHonest(s, c, answer);
    case LookUp(c) => LookUpIsHonest(s, c);
    case _ => hide Backed;
  }

  lemma {:induction false} RunIsHonest(events: seq<Event>)
    requires Run(events).Some?
    ensures Honest(Run(events).value)
  {
    hide Apply, Enabled;
    if events != [] {
      RunIsHonest(events[..|events| - 1]);
      StepIsHonest(Run(events[..|events| - 1]).value, events[|events| - 1]);
    }
  }

  /** In every interleaving, an answer served from the cache to a lookup at `n` was given by the remote side
      for that token, later than `n` less the TTL; and a transport error is never served. */
  lemma CachedAnswersAreRecent(events: seq<Event>, v: Served)
    requires Run(events).Some? && v in Run(events).value.served
    ensures !v.answer.TransportError?
    ensures exists g :: g in Run(events).value.given && g.key == v.key && g.answer == v.answer
                        && v.at - CACHE_TTL < g.at
  {
    RunIsHonest(events);
    var given := Run(events).value.given;
    var g :| g in given && g.key == v.key && g.answer == v.answer && v.at + 1 <= g.at + CACHE_TTL;
  }

  /** So a token the remote side stops calling active at `r` is never served as active to a lookup at or
      after `r` plus the TTL. */
  lemma RevocationTakesEffect(events: seq<Event>, v: Served, r: int)
    requires Run(events).Some? && v in Run(events).value.served && v.answer.Active?
    requires forall g | g in Run(events).value.given && g.key == v.key && g.at >= r :: !g.answer.Active?
    ensures v.at < r + CACHE_TTL
  {
    CachedAnswersAreRecent(events, v);
  }

  // ---------------------------------------------------------------- Who overwrites an answer

  /** When a call looked up and missed or hit, as a position in the run. */
  function LookedUp(events: seq<Event>, c: nat): Option<nat> {
    if events == [] then None
    else if events[|events| - 1] == LookUp(c) then Some(|events| - 1)
    else LookedUp(events[..|events| - 1], c)
  }

  predicate Stores(s: State, e: Event, key: string) {
    e.Finish? && e.c in s.calls && s.calls[e.c].Told? && s.calls[e.c].key == key
    && !s.calls[e.c].answer.TransportError?
  }

  /** When the latest answer for a token was stored. */
  function StoredAt(events: seq<Event>, key: string): Option<nat> {
    if events == [] then None else
    var before := events[..|events| - 1];
    if Run(before).Some? && Stores(Run(before).value, events[|events| - 1], key) then Some(|events| - 1)
    else StoredAt(before, key)
  }

  /** A call that is asking, or about to store what it was told. */
  predicate Open(call: Call) {
    call.Asking? || call.Told?
  }

  /** An open call that looked up after the present answer was stored found it expired. */
  ghost predicate FoundExpired(s: State, events: seq<Event>, c: nat)
    requires c in s.calls && Open(s.calls[c])
  {
    var key := s.calls[c].key;
    && LookedUp(events, c).Some? && LookedUp(events, c).value < |events|
    && (key in s.cache ==>
          && StoredAt(events, key).Some? && StoredAt(events, key).value < |events|
          && (StoredAt(events, key).value < LookedUp(events, c).value ==> s.cache[key].expires <= s.calls[c].at))
  }

  ghost predicate Misses(s: State, events: seq<Event>) {
    && (forall c | c in s.calls && Open(s.calls[c]) :: s.calls[c].at <= s.now && FoundExpired(s, events, c))
    && (forall c | c in s.calls && s.calls[c].Timed? :: s.calls[c].at <= s.now)
    && (forall k | k in s.cache :: StoredAt(events, k).Some? && StoredAt(events, k).value < |events|)
  }

  lemma LookUpMisses(s: State, events: seq<Event>, c: nat)
    requires Run(events) == Some(s) && Misses(s, events) && Enabled(s, LookUp(c))
    ensures Misses(Apply(s, LookUp(c)), events + [LookUp(c)])
  {
    var all := events + [LookUp(c)];
    assert all[..|all| - 1] == events;
    assert forall d | d != c :: LookedUp(all, d) == LookedUp(events, d);
    assert forall k :: StoredAt(all, k) == StoredAt(events, k);
    hide LookedUp, StoredAt, Run, Remembered, Swept;
    assert LookedUp(all, c) == Some(|events|) by {
      LookUpIsNoted(events, c);
    }
  }

  lemma LookUpIsNoted(events: seq<Event>, c: nat)
    ensures LookedUp(events + [LookUp(c)], c) == Some(|events|)
  {
  }

  lemma RememberedKeeps(cache: Cache, key: string, answer: Answer, lookedUpAt: int, now: int, k: string)
    requires k in Remembered(cache, key, answer, lookedUpAt, now)
    ensures (k == key && !answer.TransportError?)
            || (k in cache && cache[k] == Remembered(cache, key, answer, lookedUpAt, now)[k])
  {
  }

  lemma FinishMisses(s: State, events: seq<Event>, c: nat)
    requires Run(events) == Some(s) && Misses(s, events) && Enabled(s, Finish(c))
    ensures Misses(Apply(s, Finish(c)), events + [Finish(c)])
  {
    var all, after := events + [Finish(c)], Apply(s, Finish(c));
    var Told(key, at, answer) := s.calls[c];
    assert all[..|all| - 1] == events;
    assert forall d :: LookedUp(all, d) == LookedUp(events, d);
    forall k ensures StoredAt(all, k)
                     == if k == key && !answer.TransportError? then Some(|events|) else StoredAt(events, k)
    {
      assert Stores(s, Finish(c), k) <==> k == key && !answer.TransportError?;
    }
    forall k | k in after.cache
      ensures (k == key && !answer.TransportError?) || (k in s.cache && s.cache[k] == after.cache[k])
    {
      RememberedKeeps(s.cache, key, answer, at, s.now, k);
    }
    hide LookedUp, StoredAt, Run, Remembered, Swept;
  }

  /** An event that neither looks up nor stores moves no position in the history. */
  lemma OtherHistory(s: State, events: seq<Event>, e: Event)
    requires Run(events) == Some(s) && !e.LookUp? && !e.Finish?
    ensures forall d :: LookedUp(events + [e], d) == LookedUp(events, d)
    ensures forall k :: StoredAt(events + [e], k) == StoredAt(events, k)
  {
    assert (events + [e])[..|events + [e]| - 1] == events;
  }

  lemma ReplyMisses(s: State, events: seq<Event>, e: Event)
    requires Run(events) == Some(s) && Misses(s, events) && Enabled(s, e) && e.Reply?
    ensures Misses(Apply(s, e), events + [e])
  {
    OtherHistory(s, events, e);
    assert FoundExpired(s, events, e.c);
    hide LookedUp, StoredAt, Run;
  }

  lemma OtherMisses(s: State, events: seq<Event>, e: Event)
    requires Run(events) == Some(s) && Misses(s, events) && Enabled(s, e) && (e.Tick? || e.Begin?)
    ensures Misses(Apply(s, e), events + [e])
  {
    OtherHistory(s, events, e);
    hide LookedUp, StoredAt, Run;
  }

  lemma {:induction false} RunMisses(events: seq<Event>)
    requires Run(events).Some?
    ensures Misses(Run(events).value, events)
  {
    if events != [] {
      var before, e := events[..|events| - 1], events[|events| - 1];
      RunMisses(before);
      assert before + [e] == events;
      var s := Run(before).value;
      hide Misses, Apply, Enabled;
      match e
      case LookUp(c) => LookUpMisses(s, before, c);
      case Finish(c) => FinishMisses(s, before, c);
      case Reply(_, _) => ReplyMisses(s, before, e);
      case _ => OtherMisses(s, before, e);
    }
  }

  /** In every interleaving, a call replaces an answer that has not expired only if it overlapped the call that
      stored it: it had looked up before. */
  lemma OnlyOverlappingCallsOverwrite(events: seq<Event>, c: nat)
    requires Run(events).Some? && Enabled(Run(events).value, Finish(c))
    requires var s := Run(events).value; Fresh(s.cache, s.calls[c].key, s.now).Some?
    ensures var key := Run(events).value.calls[c].key;
            && LookedUp(events, c).Some? && StoredAt(events, key).Some?
            && LookedUp(events, c).value < StoredAt(events, key).value
  {
    RunMisses(events);
    var s := Run(events).value;
    assert Open(s.calls[c]);
    assert FoundExpired(s, events, c);
    if LookedUp(events, c) == StoredAt(events, s.calls[c].key) {
      NoLookUpStores(events, c, s.calls[c].key);
    }
  }

  /** So within its time a cached inactive answer gives way to nothing but such a call of its own token. */
  lemma InactiveGivesWayToOverlapOnly(events: seq<Event>, e: Event, key: string)
    requires Run(events).Some? && Enabled(Run(events).value, e)
    requires var s := Run(events).value;
             Fresh(s.cache, key, s.now) == Some(Inactive) && Fresh(Apply(s, e).cache, key, s.now) != Some(Inactive)
    ensures e.Finish? && Run(events).value.calls[e.c].key == key
    ensures LookedUp(events, e.c).Some? && StoredAt(events, key).Some?
    ensures LookedUp(events, e.c).value < StoredAt(events, key).value
  {
    hide LookedUp, StoredAt, Run;
    if e.Finish? && Run(events).value.calls[e.c].key == key {
      OnlyOverlappingCallsOverwrite(events, e.c);
    }
  }

  lemma {:induction false} NoLookUpStores(events: seq<Event>, c: nat, key: string)
    ensures LookedUp(events, c).Some? ==> LookedUp(events, c) != StoredAt(events, key)
    ensures LookedUp(events, c).Some? ==> LookedUp(events, c).value < |events|
    ensures StoredAt(events, key).Some? ==> StoredAt(events, key).value < |events|
  {
    if events != [] {
      NoLookUpStores(events[..|events| - 1], c, key);
    }
  }

  /** Calls of one token do not overlap: none is open when another looks up. */
  predicate OneAtATime(events: seq<Event>) {
    events == []
    || (&& OneAtATime(events[..|events| - 1])
        && (events[|events| - 1].LookUp? && Run(events[..|events| - 1]).Some? ==>
              AloneIn(Run(events[..|events| - 1]).value, events[|events| - 1].c)))
  }

  predicate AloneIn(s: State, c: nat) {
    c in s.calls && s.calls[c].Timed? ==>
      forall d | d in s.calls && Open(s.calls[d]) :: s.calls[d].key != s.calls[c].key
  }

  /** At most one call of a token is open, and it looked up after the present answer was stored. */
  ghost predicate LooksAreLatest(s: State, events: seq<Event>) {
    && (forall c, d | c in s.calls && d in s.calls && Open(s.calls[c]) && Open(s.calls[d]) && c != d ::
          s.calls[c].key != s.calls[d].key)
    && (forall c | c in s.calls && Open(s.calls[c]) :: LookedUp(events, c).Some?
          && (StoredAt(events, s.calls[c].key).Some? ==>
                StoredAt(events, s.calls[c].key).value < LookedUp(events, c).value))
  }

  lemma StepLooksLatest(s: State, events: seq<Event>, e: Event)
    requires Run(events) == Some(s) && Enabled(s, e) && OneAtATime(events + [e]) && LooksAreLatest(s, events)
    requires forall k | StoredAt(events, k).Some? :: StoredAt(events, k).value < |events|
    ensures LooksAreLatest(Apply(s, e), events + [e])
  {
    var all, after := events + [e], Apply(s, e);
    assert all[..|all| - 1] == events && all[|all| - 1] == e;
    assert e.LookUp? ==> AloneIn(s, e.c);
    forall d ensures LookedUp(all, d) == if e == LookUp(d) then Some(|events|) else LookedUp(events, d) {
    }
    forall k ensures StoredAt(all, k) == if Stores(s, e, k) then Some(|events|) else StoredAt(events, k) {
    }
    hide LookedUp, StoredAt, Run, OneAtATime, Remembered, Swept, Fresh;
  }

  lemma {:induction false} SerialLooksLatest(events: seq<Event>)
    requires Run(events).Some? && OneAtATime(events)
    ensures LooksAreLatest(Run(events).value, events)
  {
    if events != [] {
      var before, e := events[..|events| - 1], events[|events| - 1];
      SerialLooksLatest(before);
      assert before + [e] == events;
      forall k | StoredAt(before, k).Some? ensures StoredAt(before, k).value < |before| {
        NoLookUpStores(before, 0, k);
      }
      hide LooksAreLatest, StoredAt, Apply, Enabled;
      StepLooksLatest(Run(before).value, before, e);
    }
  }

  /** When calls of one token do not overlap, no answer is replaced before it expires: an inactive one never goes back
      to active within its time. */
  lemma SerialCallsNeverOverwrite(events: seq<Event>, c: nat)
    requires Run(events).Some? && OneAtATime(events) && Enabled(Run(events).value, Finish(c))
    ensures var s := Run(events).value; Fresh(s.cache, s.calls[c].key, s.now).None?
  {
    SerialLooksLatest(events);
    var s := Run(events).value;
    if Fresh(s.cache, s.calls[c].key, s.now).Some? {
      OnlyOverlappingCallsOverwrite(events, c);
      assert Open(s.calls[c]);
    }
  }

  // ---------------------------------------------------------------- With overlap an older answer can come back

  lemma Extend(events: seq<Event>, e: Event)
    requires Run(events).Some? && Enabled(Run(events).value, e)
    ensures Run(events + [e]) == Some(Apply(Run(events).value, e))
  {
    assert (events + [e])[..|events + [e]| - 1] == events;
  }

  /** Two calls ask, the first is told active and the second inactive; the second finishes first. */
  function Race(key: string, p: string): seq<Event> {
    [Begin(0, key), Begin(1, key), LookUp(0), LookUp(1), Reply(0, Active(p)), Reply(1, Inactive), Finish(1), Finish(0)]
  }

  /** Within the TTL, the cache may go back from inactive to active: the slower of two overlapping calls
      stores last, whichever was told first. */
  lemma InactiveCanBeOverwritten(key: string, p: string)
    ensures Run(Race(key, p)[..7]).Some? && Fresh(Run(Race(key, p)[..7]).value.cache, key, 0) == Some(Inactive)
    ensures Run(Race(key, p)).Some? && Fresh(Run(Race(key, p)).value.cache, key, 0) == Some(Active(p))
  {
    var es := Race(key, p);
    RaceAsks(key, p);
    Extend(es[..4], es[4]);
    assert es[..4] + [es[4]] == es[..5];
    Extend(es[..5], es[5]);
    assert es[..5] + [es[5]] == es[..6];
    Extend(es[..6], es[6]);
    assert es[..6] + [es[6]] == es[..7];
    Extend(es[..7], es[7]);
    assert es[..7] + [es[7]] == es;
  }

  lemma RaceAsks(key: string, p: string)
    ensures Run(Race(key, p)[..4]) == Some(State(0, map[], map[0 := Asking(key, 0), 1 := Asking(key, 0)], {}, {}))
  {
    var es := Race(key, p);
    Extend([], es[0]);
    assert [] + [es[0]] == es[..1];
    Extend(es[..1], es[1]);
    assert es[..1] + [es[1]] == es[..2];
    Extend(es[..2], es[2]);
    assert es[..2] + [es[2]] == es[..3];
    Extend(es[..3], es[3]);
    assert es[..3] + [es[3]] == es[..4];
    assert Run(es[..4]).value.calls == map[0 := Asking(key, 0), 1 := Asking(key, 0)];
  }
}
