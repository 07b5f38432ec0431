/** What a lookup is answered: the latest answer stored for its token, for five seconds from the moment the call that
    brought it looked up. */
module CacheLifetime {
  import opened Wrappers
  import opened IntrospectionCache

  // ---------------------------------------------------------------- The history of the calls

  function Clock(events: seq<Event>): int {
    if events == [] then 0 else
    match events[|events| - 1] case Tick(to) => to case _ => Clock(events[..|events| - 1])
  }

  /** The token of a call, and what its clock read. */
  function Opened(events: seq<Event>, c: nat): Option<(string, int)> {
    if events == [] then None else
    match events[|events| - 1]
    case Begin(d, key) =>
      if d == c then Some((key, Clock(events[..|events| - 1]))) else Opened(events[..|events| - 1], c)
    case _ => Opened(events[..|events| - 1], c)
  }

  function Replied(events: seq<Event>, c: nat): Option<Answer> {
    if events == [] then None else
    match events[|events| - 1]
    case Reply(d, answer) => if d == c then Some(answer) else Replied(events[..|events| - 1], c)
    case _ => Replied(events[..|events| - 1], c)
  }

  /** What a call that finishes was told about this token, and what its clock had read; nothing when it failed. */
  function Brought(before: seq<Event>, e: Event, key: string): Option<(Answer, int)> {
    match e
    case Finish(c) =>
      (match (Opened(before, c), Replied(before, c))
       case (Some((k, at)), Some(answer)) =>
         if k == key && !answer.TransportError? then Some((answer, at)) else None
       case _ => None)
    case _ => None
  }

  /** The latest answer brought home for a token. */
  function Latest(events: seq<Event>, key: string): Option<(Answer, int)> {
    if events == [] then None else
    var before, e := events[..|events| - 1], events[|events| - 1];
    if Brought(before, e, key).Some? then Brought(before, e, key) else Latest(before, key)
  }

  /** This event sweeps: it stores an answer in a cache of more than 10000. */
  predicate Sweeps(before: seq<Event>, e: Event) {
    && e.Finish? && Opened(before, e.c).Some? && Replied(before, e.c).Some?
    && !Replied(before, e.c).value.TransportError?
    && Run(before).Some? && |Run(before).value.cache| > 10000
  }

  /** The latest answer was swept away, its five seconds being over. */
  predicate Lost(events: seq<Event>, key: string) {
    events != []
    && var before, e := events[..|events| - 1], events[|events| - 1];
       && Brought(before, e, key).None?
       && (|| Lost(before, key)
           || (Sweeps(before, e) && Latest(before, key).Some? && Clock(before) >= Latest(before, key).value.1 + 5000))
  }

  // ---------------------------------------------------------------- The state knows it

  ghost predicate Knows(s: State, events: seq<Event>) {
    && s.now == Clock(events)
    && forall c | c in s.calls ::
         match s.calls[c]
         case Timed(key, at) => Opened(events, c) == Some((key, at))
         case Asking(key, at) => Opened(events, c) == Some((key, at))
         case Told(key, at, answer) => Opened(events, c) == Some((key, at)) && Replied(events, c) == Some(answer)
         case Returned => true
  }

  lemma HistoryGrows(before: seq<Event>, e: Event, c: nat)
    ensures (before + [e])[..|before + [e]| - 1] == before && (before + [e])[|before + [e]| - 1] == e
    ensures Clock(before + [e]) == if e.Tick? then e.to else Clock(before)
    ensures Opened(before + [e], c) == if e.Begin? && e.c == c then Some((e.key, Clock(before))) else Opened(before, c)
    ensures Replied(before + [e], c) == if e.Reply? && e.c == c then Some(e.answer) else Replied(before, c)
  {
    assert (before + [e])[..|before + [e]| - 1] == before;
  }

  lemma StepKnows(s: State, before: seq<Event>, e: Event)
    requires Knows(s, before) && Enabled(s, e)
    ensures Knows(Apply(s, e), before + [e])
  {
    hide Clock, Opened, Replied, Remembered, Fresh;
    HistoryGrows(before, e, 0);
    forall c | c in Apply(s, e).calls
      ensures Opened(before + [e], c)
              == if e.Begin? && e.c == c then Some((e.key, Clock(before))) else Opened(before, c)
      ensures Replied(before + [e], c) == if e.Reply? && e.c == c then Some(e.answer) else Replied(before, c)
    {
      HistoryGrows(before, e, c);
    }
  }

  /** The cache holds exactly the latest answers that were not swept away, each to the end of its five seconds. */
  ghost predicate Holds(cache: Cache, events: seq<Event>, key: string) {
    match Latest(events, key)
    case None => key !in cache && !Lost(events, key)
    case Some((answer, at)) =>
      if Lost(events, key) then key !in cache && Clock(events) >= at + 5000
      else key in cache && cache[key] == CacheEntry(answer, at + 5000)
  }

  lemma FinishHolds(s: State, before: seq<Event>, c: nat, key: string)
    requires Run(before) == Some(s) && Knows(s, before) && Enabled(s, Finish(c)) && Holds(s.cache, before, key)
    ensures Holds(Apply(s, Finish(c)).cache, before + [Finish(c)], key)
  {
    HistoryGrows(before, Finish(c), c);
    hide Run, Clock, Opened, Replied;
    var all := before + [Finish(c)];
    assert Sweeps(before, Finish(c)) <==> !s.calls[c].answer.TransportError? && |s.cache| > 10000;
    assert Brought(before, Finish(c), key)
           == if s.calls[c].key == key && !s.calls[c].answer.TransportError?
              then Some((s.calls[c].answer, s.calls[c].at)) else None;
  }

  lemma OtherHolds(s: State, before: seq<Event>, e: Event, key: string)
    requires Knows(s, before) && Enabled(s, e) && !e.Finish? && Holds(s.cache, before, key)
    ensures Holds(Apply(s, e).cache, before + [e], key)
  {
    HistoryGrows(before, e, 0);
    hide Opened, Replied, Clock, Fresh;
  }

  lemma {:induction false} CacheHoldsLatest(events: seq<Event>, key: string)
    requires Run(events).Some?
    ensures Knows(Run(events).value, events) && Holds(Run(events).value.cache, events, key)
  {
    if events != [] {
      var before, e := events[..|events| - 1], events[|events| - 1];
      CacheHoldsLatest(before, key);
      hide Knows, Holds, Apply, Enabled;
      StepKnows(Run(before).value, before, e);
      if e.Finish? {
        FinishHolds(Run(before).value, before, e.c, key);
      } else {
        OtherHolds(Run(before).value, before, e, key);
      }
      assert before + [e] == events;
    }
  }

  // ---------------------------------------------------------------- What a lookup is answered

  /** In every interleaving a lookup is answered from the cache if and only if its clock reads less than five seconds
      after the clock of the call that brought the latest answer, and that answer was not swept away since; and it is
      that answer. */
  lemma ServedExactly(events: seq<Event>, key: string, n: int)
    requires Run(events).Some?
    ensures Fresh(Run(events).value.cache, key, n)
            == match Latest(events, key)
               case None => None
               case Some((answer, at)) => if n < at + 5000 && !Lost(events, key) then Some(answer) else None
  {
    CacheHoldsLatest(events, key);
    hide Run, Latest, Lost, Clock;
  }

  /** A sweep takes nothing from a lookup that begins now or later: those five seconds are all there is to it. */
  lemma ServedForFiveSeconds(events: seq<Event>, key: string, n: int)
    requires Run(events).Some? && n >= Run(events).value.now
    ensures Fresh(Run(events).value.cache, key, n)
            == match Latest(events, key)
               case None => None
               case Some((answer, at)) => if n < at + 5000 then Some(answer) else None
  {
    CacheHoldsLatest(events, key);
    hide Run, Latest, Lost, Clock;
  }

  /** A call that looks up returns that answer, or goes on to ask. */
  lemma LookUpIsAnswered(events: seq<Event>, c: nat)
    requires Run(events).Some? && Enabled(Run(events).value, LookUp(c))
    ensures Opened(events, c).Some?
    ensures var (key, n) := Opened(events, c).value;
            var s, after := Run(events).value, Apply(Run(events).value, LookUp(c));
            match Latest(events, key)
            case None => after == s.(calls := s.calls[c := Asking(key, n)])
            case Some((answer, at)) =>
              if n < at + 5000 && !Lost(events, key)
              then after == s.(calls := s.calls[c := Returned], served := s.served + {Served(key, answer, n)})
              else after == s.(calls := s.calls[c := Asking(key, n)])
  {
    CacheHoldsLatest(events, "");
    ServedExactly(events, Opened(events, c).value.0, Opened(events, c).value.1);
    hide Run, Latest, Lost, Clock, Opened, Fresh, Holds;
  }

  // ---------------------------------------------------------------- A lookup with an old clock

  /** The i-th of as many tokens as we like. */
  function Token(i: nat): string {
    seq(i, _ => 'k')
  }

  /** n tokens looked up, one after the other, at time 0. */
  function Fill(n: nat): seq<Event> {
    if n == 0 then [] else
    Fill(n - 1) + [Begin(n - 1, Token(n - 1))] + [LookUp(n - 1)] + [Reply(n - 1, Inactive)] + [Finish(n - 1)]
  }

  ghost predicate Filled(s: State, n: nat) {
    && s.now == 0 && |s.cache| == n
    && (forall k | k in s.cache :: |k| < n && s.cache[k] == CacheEntry(Inactive, 5000))
    && (forall c | c in s.calls :: c < n)
    && (n > 0 ==> "" in s.cache)
  }

  lemma StoresOnce(s: State, c: nat, key: string)
    requires c in s.calls && s.calls[c] == Told(key, 0, Inactive) && |s.cache| <= 10000
    ensures Enabled(s, Finish(c))
    ensures Apply(s, Finish(c))
            == s.(calls := s.calls[c := Returned], cache := s.cache[key := CacheEntry(Inactive, 5000)])
  {
  }

  lemma OnceMore(events: seq<Event>, c: nat, key: string)
    requires Run(events).Some? && c !in Run(events).value.calls && key !in Run(events).value.cache
    requires Run(events).value.now == 0 && |Run(events).value.cache| <= 10000
    ensures var s, t := Run(events).value,
                        Run(events + [Begin(c, key)] + [LookUp(c)] + [Reply(c, Inactive)] + [Finish(c)]);
            && t.Some? && t.value.now == 0 && t.value.calls == s.calls[c := Returned]
            && t.value.cache == s.cache[key := CacheEntry(Inactive, 5000)]
  {
    hide Run, Remembered;
    Extend(events, Begin(c, key));
    Extend(events + [Begin(c, key)], LookUp(c));
    Extend(events + [Begin(c, key)] + [LookUp(c)], Reply(c, Inactive));
    var asked := events + [Begin(c, key)] + [LookUp(c)] + [Reply(c, Inactive)];
    StoresOnce(Run(asked).value, c, key);
    hide Apply, Enabled;
    Extend(asked, Finish(c));
  }

  lemma FilledFurther(s: State, t: State, n: nat)
    requires Filled(s, n) && t.now == 0 && t.calls == s.calls[n := Returned]
    requires t.cache == s.cache[Token(n) := CacheEntry(Inactive, 5000)]
    ensures Filled(t, n + 1)
  {
    assert Token(n) !in s.cache;
  }

  lemma TokenIsNew(s: State, n: nat)
    requires Filled(s, n)
    ensures Token(n) !in s.cache && n !in s.calls && s.now == 0 && |s.cache| == n
  {
  }

  lemma {:induction false} FillRuns(n: nat)
    requires n <= 10001
    ensures Run(Fill(n)).Some? && Filled(Run(Fill(n)).value, n)
  {
    if n == 0 {
      assert Run(Fill(0)) == Some(INITIAL);
    } else {
      hide Run, Filled, Token;
      FillRuns(n - 1);
      TokenIsNew(Run(Fill(n - 1)).value, n - 1);
      OnceMore(Fill(n - 1), n - 1, Token(n - 1));
      FilledFurther(Run(Fill(n - 1)).value, Run(Fill(n)).value, n - 1);
    }
  }

  /** A call for the first of n tokens has read its clock, and another asks and is told. */
  function Late(n: nat): seq<Event> {
    Fill(n) + [Begin(n, "")] + [Begin(n + 1, Token(n))] + [LookUp(n + 1)] + [Reply(n + 1, Inactive)] + [Tick(5000)]
  }

  lemma CallsAreNumbered(s: State, n: nat)
    requires Filled(s, n)
    ensures n !in s.calls && n + 1 !in s.calls
  {
  }

  lemma AsksAndIsTold(events: seq<Event>, c: nat, key: string)
    requires Run(events).Some? && c !in Run(events).value.calls && key !in Run(events).value.cache
    requires Run(events).value.now == 0
    ensures var s, t := Run(events).value,
                        Run(events + [Begin(c, key)] + [LookUp(c)] + [Reply(c, Inactive)] + [Tick(5000)]);
            && t.Some? && t.value.now == 5000 && t.value.calls == s.calls[c := Told(key, 0, Inactive)]
            && t.value.cache == s.cache
  {
    hide Run, Remembered;
    Extend(events, Begin(c, key));
    Extend(events + [Begin(c, key)], LookUp(c));
    Extend(events + [Begin(c, key)] + [LookUp(c)], Reply(c, Inactive));
    Extend(events + [Begin(c, key)] + [LookUp(c)] + [Reply(c, Inactive)], Tick(5000));
  }

  lemma LateRuns(n: nat)
    requires n <= 10001
    ensures Run(Fill(n)).Some? && Run(Late(n)).Some?
    ensures var s, t := Run(Fill(n)).value, Run(Late(n)).value;
            && Filled(s, n) && t.cache == s.cache && t.now == 5000
            && t.calls == s.calls[n := Timed("", 0)][n + 1 := Told(Token(n), 0, Inactive)]
  {
    FillRuns(n);
    hide Run, Fill, Filled, Token;
    TokenIsNew(Run(Fill(n)).value, n);
    CallsAreNumbered(Run(Fill(n)).value, n);
    Extend(Fill(n), Begin(n, ""));
    AsksAndIsTold(Fill(n) + [Begin(n, "")], n + 1, Token(n));
  }

  lemma FullIsSwept(s: State, n: nat, c: nat)
    requires Filled(s.(now := 0, calls := map[]), n) && n == 10001 && s.now == 5000
    requires c in s.calls && s.calls[c] == Told(Token(n), 0, Inactive)
    ensures Fresh(s.cache, "", 0) == Some(Inactive)
    ensures Enabled(s, Finish(c)) && Fresh(Apply(s, Finish(c)).cache, "", 0).None?
    ensures Apply(s, Finish(c)).calls == s.calls[c := Returned]
  {
  }

  /** The five seconds are not all there is to a lookup whose clock was read before: with 10001 tokens in the cache this
      one reads 0 and misses the answer brought at 0, which a sweep at 5000 took away. */
  lemma OldClockCanMiss(n: nat)
    requires n == 10001
    ensures Run(Late(n)).Some? && Fresh(Run(Late(n)).value.cache, "", 0) == Some(Inactive)
    ensures var run := Run(Late(n) + [Finish(n + 1)]);
            && run.Some? && n in run.value.calls && run.value.calls[n] == Timed("", 0)
            && Fresh(run.value.cache, "", 0).None?
  {
    hide Run, Fill, Filled, Token, Late;
    LateRuns(n);
    FilledIgnoresCalls(Run(Fill(n)).value, Run(Late(n)).value, n);
    FullIsSwept(Run(Late(n)).value, n, n + 1);
    Extend(Late(n), Finish(n + 1));
    hide Fresh;
  }

  lemma FilledIgnoresCalls(s: State, t: State, n: nat)
    requires Filled(s, n) && t.cache == s.cache
    ensures Filled(t.(now := 0, calls := map[]), n)
  {
  }
}
