/** Who is subscribed when, who hears which shortcut, and when a hand-over is due. */
module ShortcutAudience {
  import opened Wrappers
  import opened MenuShortcuts

  predicate Silenced(reactions: seq<set<nat>>, rounds: nat) {
    exists i | 0 <= i < rounds && i < |reactions| :: reactions[i] == {}
  }

  /** The subscriptions after some rounds: what the handlers of the last round that had any left behind, and nobody from
      the first round on that left nobody. */
  function LeftAfter(subscribers: set<nat>, reactions: seq<set<nat>>, rounds: nat): set<nat> {
    var last := if rounds < |reactions| then rounds else |reactions|;
    if subscribers == {} || Silenced(reactions, rounds) then {}
    else if last == 0 then subscribers
    else reactions[last - 1]
  }

  function Unexpired(held: seq<Held>, now: int): nat {
    if held == [] then 0 else
    Unexpired(held[..|held| - 1], now) + if now - held[|held| - 1].at <= 10000 then 1 else 0
  }

  /** Who is subscribed, told from the events. */
  function Listening(events: seq<Event>): set<nat> {
    if events == [] then {} else
    var before, e := events[..|events| - 1], events[|events| - 1];
    match e
    case Subscribe(n) => Listening(before) + {n}
    case Unsubscribe(n) => Listening(before) - {n}
    case Arrive(_, shortcutId, reactions) =>
      if shortcutId != "" && Run(before).Some? && !Run(before).value.flushScheduled
      then LeftAfter(Listening(before), reactions, 1) else Listening(before)
    case Flush(now, reactions) =>
      if Run(before).Some? then LeftAfter(Listening(before), reactions, Unexpired(Run(before).value.held, now))
      else Listening(before)
  }

  lemma {:induction false} DueIsUnexpired(held: seq<Held>, now: int)
    ensures |Due(held, now)| == Unexpired(held, now)
  {
    if held != [] {
      DueIsUnexpired(held[..|held| - 1], now);
    }
  }

  lemma ReactsOnce(subscribers: set<nat>, reactions: seq<set<nat>>, k: nat)
    ensures Reaction(LeftAfter(subscribers, reactions, k), reactions, k) == LeftAfter(subscribers, reactions, k + 1)
  {
    if k < |reactions| && reactions[k] == {} {
      assert Silenced(reactions, k + 1);
    }
    if Silenced(reactions, k) {
      var i :| 0 <= i < k && i < |reactions| && reactions[i] == {};
      assert Silenced(reactions, k + 1);
    }
  }

  lemma {:induction false} RoundsLeave(s: State, due: seq<Held>, reactions: seq<set<nat>>)
    ensures RunAll(s, due, reactions).subscribers == LeftAfter(s.subscribers, reactions, |due|)
  {
    if due != [] {
      RoundsLeave(s, due[..|due| - 1], reactions);
      ReactsOnce(s.subscribers, reactions, |due| - 1);
      hide LeftAfter, Reaction;
    }
  }

  lemma StepListens(s: State, e: Event)
    ensures Step(s, e).subscribers
            == match e
               case Subscribe(n) => s.subscribers + {n}
               case Unsubscribe(n) => s.subscribers - {n}
               case Arrive(_, shortcutId, reactions) =>
                 if shortcutId != "" && !s.flushScheduled then LeftAfter(s.subscribers, reactions, 1) else s.subscribers
               case Flush(now, reactions) => LeftAfter(s.subscribers, reactions, Unexpired(s.held, now))
  {
    match e
    case Arrive(_, _, reactions) => ReactsOnce(s.subscribers, reactions, 0);
    case Flush(now, reactions) =>
      DueIsUnexpired(s.held, now);
      RoundsLeave(s.(flushScheduled := false, held := []), Due(s.held, now), reactions);
    case _ =>
  }

  /** In every run exactly those are subscribed who subscribed and did not unsubscribe since, in a handler or
      outside. */
  lemma {:induction false} SubscribersAreListening(events: seq<Event>)
    requires Run(events).Some?
    ensures Run(events).value.subscribers == Listening(events)
  {
    if events != [] {
      hide Step, LeftAfter, Unexpired;
      SubscribersAreListening(events[..|events| - 1]);
      StepListens(Run(events[..|events| - 1]).value, events[|events| - 1]);
    }
  }

  /** An id that arrives while somebody listens and nothing waits is heard by all who listen; otherwise it is held, and
      nobody hears anything. */
  lemma ArrivalIsHeard(events: seq<Event>, e: Event)
    requires Run(events).Some? && e.Arrive? && e.shortcutId != ""
    ensures var s, after := Run(events).value, Step(Run(events).value, e);
            if Listening(events) != {} && s.held == []
            then after.rounds == s.rounds + [Round(e.shortcutId, Listening(events))] && after.held == []
            else && after.rounds == s.rounds
                 && after.held != [] && after.held[|after.held| - 1] == Held(e.shortcutId, e.now)
  {
    SubscribersAreListening(events);
    ScheduledExactly(events);
    hide Run, Listening;
  }

  /** In a hand-over each id is heard by those whom the handlers of the ids before it left subscribed. */
  lemma HandOverIsHeard(events: seq<Event>, e: Event, k: nat)
    requires Run(events).Some? && e.Flush? && Listening(events) != {} && k < Unexpired(Run(events).value.held, e.now)
    ensures var s, after := Run(events).value, Step(Run(events).value, e);
            && |after.rounds| == |s.rounds| + Unexpired(s.held, e.now)
            && after.rounds[|s.rounds| + k].subscribers == LeftAfter(Listening(events), e.reactions, k)
  {
    SubscribersAreListening(events);
    var s := Run(events).value;
    hide Run, Listening, LeftAfter;
    DueIsUnexpired(s.held, e.now);
    var start, due := s.(flushScheduled := false, held := []), Due(s.held, e.now);
    SubscribersDuring(start, due, e.reactions, k);
    RoundsLeave(start, due[..k], e.reactions);
  }

  /** A hand-over is scheduled only when there is something to hand over, and always when there is and somebody
      listens; never more than ten are held. */
  lemma {:induction false} ScheduledExactly(events: seq<Event>)
    requires Run(events).Some?
    ensures var s := Run(events).value;
            && |s.held| <= 10
            && (s.flushScheduled ==> s.held != [])
            && (Listening(events) != {} ==> (s.flushScheduled <==> s.held != []))
  {
    SubscribersAreListening(events);
    QueueIsBounded(events);
    if events != [] {
      ScheduledExactly(events[..|events| - 1]);
      var s, e := Run(events[..|events| - 1]).value, events[|events| - 1];
      hide Listening;
      if e.Flush? {
        RunAllFrame(s.(flushScheduled := false, held := []), Due(s.held, e.now), e.reactions);
      }
    }
  }
}
