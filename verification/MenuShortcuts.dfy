/** Menu shortcuts that reach a page before anything in it listens: they are held, then handed over in order. */
module MenuShortcuts {
  import opened Wrappers

  const HOLD_MS := 10000
  const HOLD_MAX := 10

  datatype Held = Held(shortcutId: string, at: int)

  /** One call of the subscribers: the id, and who was subscribed when it began. */
  datatype Round = Round(shortcutId: string, subscribers: set<nat>)

  datatype State = State(subscribers: set<nat>, held: seq<Held>, flushScheduled: bool, rounds: seq<Round>)

  /** `reactions` are the subscriptions that the handlers of each round leave behind; handlers may subscribe and
      unsubscribe, and a round beyond them leaves the subscriptions as they are. */
  datatype Event =
    | Arrive(now: int, shortcutId: string, reactions: seq<set<nat>>)
    | Subscribe(subscriber: nat)
    | Unsubscribe(subscriber: nat)
    | Flush(now: int, reactions: seq<set<nat>>)

  /** With nobody subscribed no handler runs, so nothing reacts. */
  function Reaction(subscribers: set<nat>, reactions: seq<set<nat>>, k: nat): set<nat> {
    if subscribers == {} || k >= |reactions| then subscribers else reactions[k]
  }

  function RunOne(s: State, shortcutId: string, reactions: seq<set<nat>>, k: nat): State {
    s.(subscribers := Reaction(s.subscribers, reactions, k), rounds := s.rounds + [Round(shortcutId, s.subscribers)])
  }

  function RunAll(s: State, due: seq<Held>, reactions: seq<set<nat>>): State {
    if due == [] then s else
    var last := |due| - 1;
    RunOne(RunAll(s, due[..last], reactions), due[last].shortcutId, reactions, last)
  }

  /** The held ids that have not expired. */
  function Due(held: seq<Held>, now: int): seq<Held> {
    if held == [] then [] else
    var last := |held| - 1;
    Due(held[..last], now) + if now - held[last].at <= HOLD_MS then [held[last]] else []
  }

  function Latest(held: seq<Held>): seq<Held> {
    if |held| > HOLD_MAX then held[|held| - HOLD_MAX..] else held
  }

  predicate RunsAtOnce(s: State) {
    s.subscribers != {} && !s.flushScheduled
  }

  function Step(s: State, e: Event): State {
    match e
    case Arrive(now, shortcutId, reactions) =>
      if shortcutId == "" then s
      else if RunsAtOnce(s) then RunOne(s, shortcutId, reactions, 0)
      else s.(held := Latest(s.held + [Held(shortcutId, now)]))
    case Subscribe(n) => s.(subscribers := s.subscribers + {n}, flushScheduled := s.flushScheduled || s.held != [])
    case Unsubscribe(n) => s.(subscribers := s.subscribers - {n})
    case Flush(now, reactions) =>
      if s.subscribers == {} then s.(flushScheduled := false)
      else RunAll(s.(flushScheduled := false, held := []), Due(s.held, now), reactions)
  }

  const INITIAL := State({}, [], false, [])

  /** A flush happens only when one is scheduled. */
  function Run(events: seq<Event>): Option<State> {
    if events == [] then Some(INITIAL) else
    var e := events[|events| - 1];
    match Run(events[..|events| - 1])
    case None => None
    case Some(s) => if e.Flush? && !s.flushScheduled then None else Some(Step(s, e))
  }

  // ---------------------------------------------------------------- The page's listeners

  class Preload {
    var subscribers: set<nat>
    var held: seq<Held>
    var flushScheduled: bool
    ghost var rounds: seq<Round>

    constructor ()
      ensures View() == INITIAL
    {
      subscribers, held, flushScheduled, rounds := {}, [], false, [];
    }

    ghost function View(): State
      reads this
    {
      State(subscribers, held, flushScheduled, rounds)
    }

    method RunMenuShortcut(shortcutId: string, reactions: seq<set<nat>>, k: nat)
      modifies this`subscribers, this`rounds
      ensures View() == RunOne(old(View()), shortcutId, reactions, k)
    {
      rounds := rounds + [Round(shortcutId, subscribers)];
      if subscribers != {} && k < |reactions| {
        subscribers := reactions[k];
      }
    }

    method OnMenuShortcut(now: int, shortcutId: string, reactions: seq<set<nat>>)
      modifies this
      ensures View() == Step(old(View()), Arrive(now, shortcutId, reactions))
    {
      if shortcutId == "" {
        return;
      }
      if subscribers != {} && !flushScheduled {
        RunMenuShortcut(shortcutId, reactions, 0);
        return;
      }
      held := held + [Held(shortcutId, now)];
      if |held| > HOLD_MAX {
        held := held[|held| - HOLD_MAX..];
      }
    }

    method OnSubscribe(subscriber: nat)
      modifies this
      ensures View() == Step(old(View()), Subscribe(subscriber))
    {
      subscribers := subscribers + {subscriber};
      if !flushScheduled && held != [] {
        flushScheduled := true;
      }
    }

    method OnUnsubscribe(subscriber: nat)
      modifies this
      ensures View() == Step(old(View()), Unsubscribe(subscriber))
    {
      subscribers := subscribers - {subscriber};
    }

    method OnFlush(now: int, reactions: seq<set<nat>>)
      modifies this
      ensures View() == Step(old(View()), Flush(now, reactions))
    {
      flushScheduled := false;
      if subscribers == {} {
        return;
      }
      var due := Due(held, now);
      held := [];
      ghost var start := View();
      var k := 0;
      while k < |due|
        invariant k <= |due|
        invariant View() == RunAll(start, due[..k], reactions)
      {
        assert due[..k + 1][..k] == due[..k];
        RunMenuShortcut(due[k].shortcutId, reactions, k);
        k := k + 1;
      }
      assert due[..k] == due;
    }
  }

  // ---------------------------------------------------------------- What every state keeps

  predicate Sound(s: State) {
    && |s.held| <= HOLD_MAX
    && (s.held != [] && s.subscribers != {} ==> s.flushScheduled)
  }

  lemma {:induction false} RunAllFrame(s: State, due: seq<Held>, reactions: seq<set<nat>>)
    ensures var t := RunAll(s, due, reactions);
            && t.held == s.held && t.flushScheduled == s.flushScheduled
            && |t.rounds| == |s.rounds| + |due| && t.rounds[..|s.rounds|] == s.rounds
            && forall k | 0 <= k < |due| :: t.rounds[|s.rounds| + k].shortcutId == due[k].shortcutId
  {
    if due != [] {
      RunAllFrame(s, due[..|due| - 1], reactions);
    }
  }

  /** The queue never exceeds ten, and with somebody subscribed a non-empty one always has its hand-over scheduled. */
  lemma {:induction false} QueueIsBounded(events: seq<Event>)
    requires Run(events).Some?
    ensures Sound(Run(events).value)
  {
    if events != [] {
      QueueIsBounded(events[..|events| - 1]);
      var s := Run(events[..|events| - 1]).value;
      match events[|events| - 1]
      case Flush(now, reactions) =>
        RunAllFrame(s.(flushScheduled := false, held := []), Due(s.held, now), reactions);
      case _ =>
    }
  }

  /** An id that runs at once overtakes nobody: nothing is held then. */
  lemma DirectPathCannotOvertake(events: seq<Event>)
    requires Run(events).Some? && RunsAtOnce(Run(events).value)
    ensures Run(events).value.held == []
  {
    QueueIsBounded(events);
  }

  // ---------------------------------------------------------------- What becomes of every id

  datatype Fate = Ran(now: int) | Expired(now: int) | Overflowed

  /** The ids that arrived, in order. */
  function Arrivals(events: seq<Event>): seq<Held> {
    if events == [] then [] else
    Arrivals(events[..|events| - 1])
    + match events[|events| - 1]
      case Arrive(now, shortcutId, _) => if shortcutId == "" then [] else [Held(shortcutId, now)]
      case _ => []
  }

  function FlushFates(held: seq<Held>, now: int): seq<Fate> {
    seq(|held|, i requires 0 <= i < |held| => if now - held[i].at <= HOLD_MS then Ran(now) else Expired(now))
  }

  /** What an event settles, oldest id first. */
  function NewFates(s: State, e: Event): seq<Fate> {
    match e
    case Arrive(now, shortcutId, _) =>
      if shortcutId == "" then []
      else if RunsAtOnce(s) then [Ran(now)]
      else if |s.held| >= HOLD_MAX then [Overflowed] else []
    case Flush(now, _) => if s.subscribers == {} then [] else FlushFates(s.held, now)
    case _ => []
  }

  function Fates(events: seq<Event>): seq<Fate> {
    if events == [] then [] else
    var before := events[..|events| - 1];
    Fates(before) + match Run(before) case None => [] case Some(s) => NewFates(s, events[|events| - 1])
  }

  /** The ids that ran, in the order they arrived. */
  function Chosen(arrivals: seq<Held>, fates: seq<Fate>): seq<string>
    requires |fates| <= |arrivals|
  {
    if fates == [] then [] else
    var last := |fates| - 1;
    Chosen(arrivals, fates[..last]) + if fates[last].Ran? then [arrivals[last].shortcutId] else []
  }

  function Ids(rounds: seq<Round>): seq<string> {
    seq(|rounds|, i requires 0 <= i < |rounds| => rounds[i].shortcutId)
  }

  /** Why a fate is what it is. */
  predicate Deserved(arrivals: seq<Held>, i: nat, fate: Fate)
    requires i < |arrivals|
  {
    match fate
    case Ran(now) => now - arrivals[i].at <= 10000
    case Expired(now) => now - arrivals[i].at > 10000
    case Overflowed => i + 10 < |arrivals|
  }

  ghost predicate Accounted(s: State, arrivals: seq<Held>, fates: seq<Fate>) {
    && |fates| <= |arrivals|
    && s.held == arrivals[|fates|..]
    && Ids(s.rounds) == Chosen(arrivals, fates)
    && forall i | 0 <= i < |fates| :: Deserved(arrivals, i, fates[i])
  }

  lemma {:induction false} ChosenIgnoresLater(arrivals: seq<Held>, more: seq<Held>, fates: seq<Fate>)
    requires |fates| <= |arrivals|
    ensures Chosen(arrivals + more, fates) == Chosen(arrivals, fates)
  {
    if fates != [] {
      ChosenIgnoresLater(arrivals, more, fates[..|fates| - 1]);
    }
  }

  lemma {:induction false} FlushChoosesDue(arrivals: seq<Held>, fates: seq<Fate>, held: seq<Held>, now: int)
    requires |fates| + |held| <= |arrivals| && held == arrivals[|fates|..|fates| + |held|]
    ensures Chosen(arrivals, fates + FlushFates(held, now))
            == Chosen(arrivals, fates)
               + seq(|Due(held, now)|, i requires 0 <= i < |Due(held, now)| => Due(held, now)[i].shortcutId)
  {
    if held == [] {
      assert fates + FlushFates(held, now) == fates;
    } else {
      var last := |held| - 1;
      FlushChoosesDue(arrivals, fates, held[..last], now);
      var all := fates + FlushFates(held, now);
      assert all[..|all| - 1] == fates + FlushFates(held[..last], now);
      assert arrivals[|all| - 1] == held[last];
    }
  }

  lemma ChosenNext(arrivals: seq<Held>, fates: seq<Fate>, fate: Fate)
    requires |fates| < |arrivals|
    ensures Chosen(arrivals, fates + [fate])
            == Chosen(arrivals, fates) + if fate.Ran? then [arrivals[|fates|].shortcutId] else []
  {
    assert (fates + [fate])[..|fates|] == fates;
  }

  lemma ArriveIsAccounted(s: State, e: Event, arrivals: seq<Held>, fates: seq<Fate>)
    requires Sound(s) && Accounted(s, arrivals, fates) && e.Arrive? && e.shortcutId != ""
    ensures Accounted(Step(s, e), arrivals + [Held(e.shortcutId, e.now)], fates + NewFates(s, e))
  {
    var arrived := Held(e.shortcutId, e.now);
    var more, after := arrivals + [arrived], Step(s, e);
    ChosenIgnoresLater(arrivals, [arrived], fates);
    hide Chosen;
    if RunsAtOnce(s) {
      ChosenNext(more, fates, Ran(e.now));
    } else if |s.held| >= HOLD_MAX {
      ChosenNext(more, fates, Overflowed);
      assert after.held == (s.held + [arrived])[1..];
    } else {
      assert fates + NewFates(s, e) == fates;
    }
  }

  lemma FlushIsAccounted(s: State, e: Event, arrivals: seq<Held>, fates: seq<Fate>)
    requires Accounted(s, arrivals, fates) && e.Flush? && s.subscribers != {}
    ensures Accounted(Step(s, e), arrivals, fates + NewFates(s, e))
  {
    var due := Due(s.held, e.now);
    FlushChoosesDue(arrivals, fates, s.held, e.now);
    RunAllFrame(s.(flushScheduled := false, held := []), due, e.reactions);
    assert Ids(Step(s, e).rounds) == Ids(s.rounds) + seq(|due|, i requires 0 <= i < |due| => due[i].shortcutId);
  }

  lemma OtherIsAccounted(s: State, e: Event, arrivals: seq<Held>, fates: seq<Fate>)
    requires Accounted(s, arrivals, fates)
    requires !(e.Arrive? && e.shortcutId != "") && !(e.Flush? && s.subscribers != {})
    ensures Accounted(Step(s, e), arrivals, fates) && NewFates(s, e) == []
  {
    hide Chosen, Deserved;
  }

  /** What one more event adds to the history. */
  lemma HistoryGrows(events: seq<Event>)
    requires events != [] && Run(events).Some?
    ensures var before, e := events[..|events| - 1], events[|events| - 1];
            && Run(before).Some? && Run(events).value == Step(Run(before).value, e)
            && Fates(events) == Fates(before) + NewFates(Run(before).value, e)
            && Arrivals(events) == if e.Arrive? && e.shortcutId != ""
                                   then Arrivals(before) + [Held(e.shortcutId, e.now)] else Arrivals(before)
  {
    hide Step, NewFates;
    var before := events[..|events| - 1];
    assert Arrivals(before) + [] == Arrivals(before);
  }

  /** Every id has exactly one fate or is still held, in arrival order: the rounds are the ids that ran, in the
      order they arrived and once each; the queue is what arrived last; and an id that never runs was older than
      the hold or had ten more recent ones behind it. */
  lemma {:induction false} EveryIdIsAccountedFor(events: seq<Event>)
    requires Run(events).Some?
    ensures Accounted(Run(events).value, Arrivals(events), Fates(events))
  {
    if events != [] {
      var before, e := events[..|events| - 1], events[|events| - 1];
      HistoryGrows(events);
      EveryIdIsAccountedFor(before);
      QueueIsBounded(before);
      hide Run, Step, Arrivals, Fates, NewFates, Accounted, Sound;
      var s, fates := Run(before).value, Fates(before);
      if e.Arrive? && e.shortcutId != "" {
        ArriveIsAccounted(s, e, Arrivals(before), fates);
      } else if e.Flush? && s.subscribers != {} {
        FlushIsAccounted(s, e, Arrivals(before), fates);
      } else {
        OtherIsAccounted(s, e, Arrivals(before), fates);
        assert fates + [] == fates;
      }
    }
  }

  // ---------------------------------------------------------------- Who hears a round

  lemma {:induction false} SubscribersDuring(s: State, due: seq<Held>, reactions: seq<set<nat>>, k: nat)
    requires k < |due|
    ensures |RunAll(s, due, reactions).rounds| == |s.rounds| + |due|
    ensures RunAll(s, due, reactions).rounds[|s.rounds| + k].subscribers == RunAll(s, due[..k], reactions).subscribers
    decreases |due|
  {
    RunAllFrame(s, due, reactions);
    RunAllFrame(s, due[..|due| - 1], reactions);
    if k < |due| - 1 {
      SubscribersDuring(s, due[..|due| - 1], reactions, k);
      assert due[..|due| - 1][..k] == due[..k];
    }
  }

  lemma {:induction false} SilenceLasts(s: State, due: seq<Held>, reactions: seq<set<nat>>, k: nat)
    requires s.subscribers != {} && k <= |due|
    ensures RunAll(s, due[..k], reactions).subscribers == {}
            <==> exists i :: 0 <= i < k && i < |reactions| && reactions[i] == {}
  {
    if k > 0 {
      SilenceLasts(s, due, reactions, k - 1);
      assert due[..k][..k - 1] == due[..k - 1];
    }
  }

  /** Within one hand-over a round is heard by nobody exactly when the handlers of an earlier round of that
      hand-over left nobody subscribed: those ids are gone, although they neither overflowed nor expired. */
  lemma UnheardExactlyAfterLastUnsubscribe(s: State, e: Event, k: nat)
    requires e.Flush? && s.subscribers != {} && k < |Due(s.held, e.now)|
    ensures |Step(s, e).rounds| == |s.rounds| + |Due(s.held, e.now)|
    ensures Step(s, e).rounds[|s.rounds| + k].subscribers == {}
            <==> exists i :: 0 <= i < k && i < |e.reactions| && e.reactions[i] == {}
  {
    var start, due := s.(flushScheduled := false, held := []), Due(s.held, e.now);
    SubscribersDuring(start, due, e.reactions, k);
    SilenceLasts(start, due, e.reactions, k);
  }

  lemma RunNext(events: seq<Event>, e: Event)
    requires Run(events).Some? && (e.Flush? ==> Run(events).value.flushScheduled)
    ensures Run(events + [e]) == Some(Step(Run(events).value, e))
  {
    assert (events + [e])[..|events + [e]| - 1] == events;
  }

  lemma HandOverToAQuitter(a: Held, b: Held, now: int)
    requires now - a.at <= HOLD_MS && now - b.at <= HOLD_MS
    ensures Step(State({7}, [a, b], true, []), Flush(now, [{}]))
            == State({}, [], false, [Round(a.shortcutId, {7}), Round(b.shortcutId, {})])
  {
    assert [a][..0] == [] && [a, b][..1] == [a];
    assert Due([a], now) == [a] && Due([a, b], now) == [a, b];
    assert RunAll(State({7}, [], false, []), [a], [{}]) == State({}, [], false, [Round(a.shortcutId, {7})]);
  }

  lemma TwoHeldThenSubscribed(a: Held, b: Held)
    requires a.shortcutId != "" && b.shortcutId != ""
    ensures Run([Arrive(a.at, a.shortcutId, []), Arrive(b.at, b.shortcutId, []), Subscribe(7)])
            == Some(State({7}, [a, b], true, []))
  {
    var e0, e1, e2 := Arrive(a.at, a.shortcutId, []), Arrive(b.at, b.shortcutId, []), Subscribe(7);
    StartsEmpty();
    hide Run;
    assert Step(INITIAL, e0) == State({}, [a], false, []);
    assert Step(State({}, [a], false, []), e1) == State({}, [a, b], false, []);
    assert Step(State({}, [a, b], false, []), e2) == State({7}, [a, b], true, []);
    hide Step;
    RunNext([], e0);
    assert [] + [e0] == [e0];
    RunNext([e0], e1);
    assert [e0] + [e1] == [e0, e1];
    RunNext([e0, e1], e2);
    assert [e0, e1] + [e2] == [e0, e1, e2];
  }

  /** Two ids held, one subscriber, and a handler that unsubscribes on the first: the second is lost. */
  lemma UnsubscribingHandlerLosesTheRest()
    ensures Run([Arrive(0, "x", []), Arrive(1, "y", []), Subscribe(7), Flush(2, [{}])])
            == Some(State({}, [], false, [Round("x", {7}), Round("y", {})]))
  {
    var before, flush := [Arrive(0, "x", []), Arrive(1, "y", []), Subscribe(7)], Flush(2, [{}]);
    TwoHeldThenSubscribed(Held("x", 0), Held("y", 1));
    HandOverToAQuitter(Held("x", 0), Held("y", 1), 2);
    hide Run, Step;
    RunNext(before, flush);
    assert before + [flush] == [Arrive(0, "x", []), Arrive(1, "y", []), Subscribe(7), Flush(2, [{}])];
  }

  lemma StartsEmpty()
    ensures Run([]) == Some(INITIAL)
  {
  }
}
