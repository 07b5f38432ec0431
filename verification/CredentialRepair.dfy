/** The credential-repair loop of an idling daemon: ticks, attempts that finish later, and resets. */
module CredentialRepair {
  import opened Wrappers
  import opened DaemonMint

  /** Milliseconds. */
  const BACKOFFS_MS: seq<int> := [1000, 2000, 4000, 8000, 16000, 30000]
  const MAX_BACKOFF_MS := 30000

  /** The configured escalation, then flat at its last value. */
  function Backoff(schedule: seq<int>, attempt: nat): int {
    if |schedule| == 0 then MAX_BACKOFF_MS
    else if attempt < |schedule| then schedule[attempt]
    else schedule[|schedule| - 1]
  }

  /** What a finished attempt does to the count: only a mint or a failure consumes one. */
  predicate Consumes(o: Outcome) {
    o == Minted || o == EnsureFailed
  }

  class Reconciler {
    const schedule: seq<int>
    const hasAuthStorage: bool
    var attempt: nat
    var nextAt: int
    var inFlight: bool
    var stopped: bool

    constructor (schedule: seq<int>, hasAuthStorage: bool)
      ensures this.schedule == schedule && this.hasAuthStorage == hasAuthStorage
      ensures attempt == 0 && nextAt == 0 && !inFlight && !stopped
    {
      this.schedule := schedule;
      this.hasAuthStorage := hasAuthStorage;
      attempt, nextAt, inFlight, stopped := 0, 0, false, false;
    }

    ghost function View(): Loop
      reads this
    {
      Loop(schedule, attempt, nextAt, inFlight, stopped)
    }

    /** The part of a repair before it waits for the mint. */
    method MaybeStart(now: int) returns (started: bool)
      modifies this`inFlight
      ensures started <==> hasAuthStorage && Due(old(View()), now)
      ensures View() == if started then old(View()).(inFlight := true) else old(View())
    {
      if inFlight || stopped || !hasAuthStorage || now < nextAt {
        return false;
      }
      inFlight := true;
      return true;
    }

    /** The part after it. */
    method Finish(outcome: Outcome, now: int)
      modifies this
      ensures View() == Finished(old(View()), outcome, now)
    {
      match outcome {
        case Minted =>
          attempt := attempt + 1;
          nextAt := now + Backoff(schedule, attempt);
        case NoSession | Unavailable =>
          nextAt := now + Backoff(schedule, attempt);
        case AlreadyCurrent =>
          stopped := true;
        case EnsureFailed =>
          attempt := attempt + 1;
          nextAt := now + Backoff(schedule, attempt);
      }
      inFlight := false;
    }

    method Reset()
      modifies this
      ensures View() == old(View()).(attempt := 0, nextAt := 0, stopped := false)
    {
      attempt, nextAt, stopped := 0, 0, false;
    }

    method Tick(awaiting: bool, now: int) returns (started: bool)
      modifies this
      ensures started <==> awaiting && hasAuthStorage && Due(old(View()), now)
      ensures View() == if started then old(View()).(inFlight := true)
                        else if awaiting then old(View())
                        else old(View()).(attempt := 0, nextAt := 0, stopped := false)
    {
      if awaiting {
        started := MaybeStart(now);
      } else {
        Reset();
        started := false;
      }
    }
  }

  datatype Loop = Loop(schedule: seq<int>, attempt: nat, nextAt: int, inFlight: bool, stopped: bool)

  predicate Due(l: Loop, now: int) {
    !l.inFlight && !l.stopped && now >= l.nextAt
  }

  function Finished(l: Loop, outcome: Outcome, now: int): Loop {
    var attempt := if Consumes(outcome) then l.attempt + 1 else l.attempt;
    Loop(l.schedule, attempt,
         if outcome == AlreadyCurrent then l.nextAt else now + Backoff(l.schedule, attempt),
         false, l.stopped || outcome == AlreadyCurrent)
  }

  // ---------------------------------------------------------------- Every run

  /** One repair: when it started and, once it has finished, when and how. */
  datatype Attempt = Attempt(start: int, end: Option<(int, Outcome)>)

  /** The loop, the clock, and the attempts of the current episode: those since the last reset, with the one
      in flight at that reset. */
  datatype State = State(loop: Loop, now: int, episode: seq<Attempt>)

  datatype Event = Tick(now: int, awaiting: bool) | Complete(now: int, outcome: Outcome) | Reset

  predicate Enabled(s: State, e: Event) {
    match e
    case Tick(now, _) => now >= s.now
    case Complete(now, _) => now >= s.now && s.loop.inFlight && s.episode != []
    case Reset => true
  }

  function ResetState(s: State): State {
    State(s.loop.(attempt := 0, nextAt := 0, stopped := false), s.now,
          if s.loop.inFlight && s.episode != [] then [s.episode[|s.episode| - 1]] else [])
  }

  function Apply(s: State, e: Event): State
    requires Enabled(s, e)
  {
    match e
    case Tick(now, awaiting) =>
      if !awaiting then ResetState(s.(now := now))
      else if Due(s.loop, now) then
        State(s.loop.(inFlight := true), now, s.episode + [Attempt(now, None)])
      else s.(now := now)
    case Complete(now, outcome) =>
      var last := |s.episode| - 1;
      State(Finished(s.loop, outcome, now), now,
            s.episode[last := s.episode[last].(end := Some((now, outcome)))])
    case Reset => ResetState(s)
  }

  function Initial(schedule: seq<int>): State {
    State(Loop(schedule, 0, 0, false, false), 0, [])
  }

  function Run(schedule: seq<int>, events: seq<Event>): Option<State> {
    if events == [] then Some(Initial(schedule)) else
    match Run(schedule, events[..|events| - 1])
    case None => None
    case Some(s) => if Enabled(s, events[|events| - 1]) then Some(Apply(s, events[|events| - 1])) else None
  }

  function Consumed(episode: seq<Attempt>): nat {
    if episode == [] then 0 else
    Consumed(episode[..|episode| - 1])
    + match episode[|episode| - 1].end
      case None => 0
      case Some(end) => if Consumes(end.1) then 1 else 0
  }

  /** Only the latest attempt can be unfinished, and it is exactly when the loop has one in flight. */
  ghost predicate OneInFlight(s: State) {
    && (forall i | 0 <= i < |s.episode| - 1 :: s.episode[i].end.Some?)
    && (s.loop.inFlight <==> s.episode != [] && s.episode[|s.episode| - 1].end.None?)
  }

  /** Each attempt starts at least the backoff of the attempts consumed so far after the one before finished. */
  ghost predicate Paced(schedule: seq<int>, episode: seq<Attempt>) {
    forall i | 0 <= i < |episode| - 1 && episode[i].end.Some? ::
      && episode[i].end.value.1 != AlreadyCurrent
      && episode[i + 1].start >= episode[i].end.value.0 + Backoff(schedule, Consumed(episode[..i + 1]))
  }

  ghost predicate Counts(s: State) {
    && s.loop.attempt == Consumed(s.episode)
    && (forall i | 0 <= i < |s.episode| ::
          s.episode[i].end == None || s.episode[i].end.value.1 != AlreadyCurrent || s.loop.stopped)
    && (s.loop.stopped ==> s.episode != [] && s.episode[|s.episode| - 1].end.Some?
                           && s.episode[|s.episode| - 1].end.value.1 == AlreadyCurrent)
    && (s.episode != [] && s.episode[|s.episode| - 1].end.Some? && !s.loop.stopped ==>
          s.loop.nextAt == s.episode[|s.episode| - 1].end.value.0 + Backoff(s.loop.schedule, s.loop.attempt))
    && (s.episode == [] ==> s.loop.nextAt == 0)
  }

  ghost predicate Invariant(s: State) {
    OneInFlight(s) && Counts(s) && Paced(s.loop.schedule, s.episode)
  }

  lemma StartKeepsInvariant(s: State, now: int)
    requires Invariant(s) && now >= s.now && Due(s.loop, now)
    ensures Invariant(Apply(s, Tick(now, true)))
  {
    var after := Apply(s, Tick(now, true));
    assert after.episode[..|s.episode|] == s.episode;
    forall i | 0 <= i < |after.episode| - 1 && after.episode[i].end.Some?
      ensures after.episode[i].end.value.1 != AlreadyCurrent
      ensures after.episode[i + 1].start
              >= after.episode[i].end.value.0 + Backoff(s.loop.schedule, Consumed(after.episode[..i + 1]))
    {
      assert after.episode[..i + 1] == s.episode[..i + 1];
      if i == |s.episode| - 1 {
        assert s.episode[..i + 1] == s.episode;
      }
    }
  }

  lemma CompleteKeepsInvariant(s: State, now: int, outcome: Outcome)
    requires Invariant(s) && Enabled(s, Complete(now, outcome))
    ensures Invariant(Apply(s, Complete(now, outcome)))
  {
    var after, last := Apply(s, Complete(now, outcome)), |s.episode| - 1;
    assert after.episode[..last] == s.episode[..last];
    forall i | 0 <= i < last && after.episode[i].end.Some?
      ensures after.episode[i].end.value.1 != AlreadyCurrent
      ensures after.episode[i + 1].start
              >= after.episode[i].end.value.0 + Backoff(s.loop.schedule, Consumed(after.episode[..i + 1]))
    {
      assert after.episode[..i + 1] == s.episode[..i + 1];
    }
  }

  lemma ResetKeepsInvariant(s: State)
    requires Invariant(s)
    ensures Invariant(ResetState(s))
  {
    var after := ResetState(s);
    if after.episode != [] {
      assert after.episode[..0] == [];
    }
  }

  lemma {:induction false} RunKeepsInvariant(schedule: seq<int>, events: seq<Event>)
    requires Run(schedule, events).Some?
    ensures Invariant(Run(schedule, events).value) && Run(schedule, events).value.loop.schedule == schedule
  {
    if events != [] {
      RunKeepsInvariant(schedule, events[..|events| - 1]);
      var s := Run(schedule, events[..|events| - 1]).value;
      match events[|events| - 1]
      case Tick(now, awaiting) =>
        if !awaiting {
          ResetKeepsInvariant(s.(now := now));
        } else if Due(s.loop, now) {
          StartKeepsInvariant(s, now);
        }
      case Complete(now, outcome) => CompleteKeepsInvariant(s, now, outcome);
      case Reset => ResetKeepsInvariant(s);
    }
  }

  /** Every attempt so far consumed one: no signed-out spell in between. */
  predicate AllConsumed(episode: seq<Attempt>) {
    forall a | a in episode :: a.end.Some? && Consumes(a.end.value.1)
  }

  lemma {:induction false} AllConsumedCounts(episode: seq<Attempt>)
    requires AllConsumed(episode)
    ensures Consumed(episode) == |episode|
  {
    if episode != [] {
      AllConsumedCounts(episode[..|episode| - 1]);
    }
  }

  /** An attempt ends no earlier than it starts, and the next one starts no earlier than that. */
  ghost predicate Forward(s: State) {
    && (forall i | 0 <= i < |s.episode| :: s.episode[i].start <= s.now)
    && (forall i | 0 <= i < |s.episode| && s.episode[i].end.Some? ::
          s.episode[i].start <= s.episode[i].end.value.0 <= s.now)
    && (forall i | 0 <= i < |s.episode| - 1 && s.episode[i].end.Some? ::
          s.episode[i].end.value.0 <= s.episode[i + 1].start)
  }

  lemma {:induction false} TimeRunsForward(schedule: seq<int>, events: seq<Event>)
    requires Run(schedule, events).Some?
    ensures Forward(Run(schedule, events).value)
  {
    if events != [] {
      TimeRunsForward(schedule, events[..|events| - 1]);
    }
  }

  /** At most one repair is in flight in every run, each but the latest ended before the next started, never as
      already current, and was followed by the backoff of the attempts consumed by then. */
  lemma RepairsNeverOverlap(schedule: seq<int>, events: seq<Event>, i: nat)
    requires Run(schedule, events).Some?
    requires i + 1 < |Run(schedule, events).value.episode|
    ensures var episode := Run(schedule, events).value.episode;
            && episode[i].end.Some?
            && episode[i].end.value.1 != AlreadyCurrent
            && episode[i].start <= episode[i].end.value.0 <= episode[i + 1].start
            && episode[i].end.value.0 + Backoff(schedule, Consumed(episode[..i + 1])) <= episode[i + 1].start
  {
    RunKeepsInvariant(schedule, events);
    TimeRunsForward(schedule, events);
  }

  /** When the next awaiting tick starts a repair, told from the history alone. */
  predicate Ready(schedule: seq<int>, episode: seq<Attempt>, now: int) {
    episode == []
    || match episode[|episode| - 1].end
       case None => false
       case Some((end, outcome)) =>
         outcome != AlreadyCurrent && now >= end + Backoff(schedule, Consumed(episode))
  }

  lemma StartsExactlyWhenReady(schedule: seq<int>, events: seq<Event>, now: int)
    requires Run(schedule, events).Some?
    requires now >= Run(schedule, events).value.now
    ensures var s := Run(schedule, events).value;
            Apply(s, Tick(now, true)).episode
            == if Ready(schedule, s.episode, now) then s.episode + [Attempt(now, None)] else s.episode
  {
    RunKeepsInvariant(schedule, events);
    ClockStartsAtZero(schedule, events);
  }

  lemma {:induction false} ClockStartsAtZero(schedule: seq<int>, events: seq<Event>)
    requires Run(schedule, events).Some?
    ensures Run(schedule, events).value.now >= 0
  {
    if events != [] {
      ClockStartsAtZero(schedule, events[..|events| - 1]);
    }
  }

  /** No failure, and no absence of a session, stops the loop: 30 s after the latest repair ended at most, the next
      awaiting tick starts another, whatever came before. */
  lemma FailureNeverStopsTheLoop(events: seq<Event>, now: int)
    requires Run(BACKOFFS_MS, events).Some?
    requires var s := Run(BACKOFFS_MS, events).value;
             && s.episode != []
             && s.episode[|s.episode| - 1].end.Some?
             && s.episode[|s.episode| - 1].end.value.1 != AlreadyCurrent
             && now >= s.episode[|s.episode| - 1].end.value.0 + MAX_BACKOFF_MS
             && now >= s.now
    ensures var s := Run(BACKOFFS_MS, events).value;
            Apply(s, Tick(now, true)).episode == s.episode + [Attempt(now, None)]
  {
    StartsExactlyWhenReady(BACKOFFS_MS, events, now);
  }

  /** A repair that found the store current is the last one until the daemon leaves the awaiting state. */
  lemma {:induction false} AlreadyCurrentStops(schedule: seq<int>, events: seq<Event>, more: seq<Event>)
    requires Run(schedule, events).Some? && Run(schedule, events + more).Some?
    requires var s := Run(schedule, events).value;
             && s.episode != []
             && s.episode[|s.episode| - 1].end.Some?
             && s.episode[|s.episode| - 1].end.value.1 == AlreadyCurrent
    requires forall e | e in more :: e.Complete? || (e.Tick? && e.awaiting)
    ensures Run(schedule, events + more).value.episode == Run(schedule, events).value.episode
  {
    if more == [] {
      assert events + more == events;
    } else {
      var before := more[..|more| - 1];
      assert (events + more)[..|events + more| - 1] == events + before;
      AlreadyCurrentStops(schedule, events, before);
      RunKeepsInvariant(schedule, events + before);
    }
  }

  /** The gap before attempt k, when all k before it consumed one. */
  lemma GapBefore(s: State, k: nat)
    requires Invariant(s) && s.loop.schedule == BACKOFFS_MS && Forward(s)
    requires 1 <= k < |s.episode| && AllConsumed(s.episode[..k])
    ensures s.episode[k - 1].end.Some?
    ensures s.episode[k].start >= s.episode[k - 1].end.value.0 + (if k < 5 then BACKOFFS_MS[k] else 30000)
    ensures s.episode[k - 1].end.value.0 >= s.episode[k - 1].start
  {
    AllConsumedCounts(s.episode[..k]);
    assert s.episode[..k][k - 1] == s.episode[k - 1];
  }

  lemma {:induction false} GapsAddUp(s: State, n: nat)
    requires Invariant(s) && s.loop.schedule == BACKOFFS_MS && Forward(s)
    requires 2 <= n <= |s.episode| && AllConsumed(s.episode[..n - 1])
    ensures s.episode[0].end.Some?
    ensures s.episode[n - 1].start - s.episode[0].end.value.0
            >= if n >= 5 then 30000 * (n - 4) else [2000, 6000, 14000][n - 2]
  {
    hide Invariant, Forward, Consumed;
    GapBefore(s, n - 1);
    if n > 2 {
      assert AllConsumed(s.episode[..n - 2]) by {
        assert s.episode[..n - 2] == s.episode[..n - 1][..n - 2];
      }
      GapsAddUp(s, n - 1);
    }
  }

  /** With the shipped schedule, n consuming repairs since the last reset span at least 30 s for each after the
      fourth: the first gaps are 2, 4, 8 and 16 s, and every later one is 30 s. */
  lemma FailuresSlowDown(events: seq<Event>, n: nat)
    requires Run(BACKOFFS_MS, events).Some?
    requires 5 <= n <= |Run(BACKOFFS_MS, events).value.episode|
    requires AllConsumed(Run(BACKOFFS_MS, events).value.episode[..n - 1])
    ensures var episode := Run(BACKOFFS_MS, events).value.episode;
            episode[0].end.Some? && episode[n - 1].start - episode[0].end.value.0 >= 30000 * (n - 4)
  {
    var s := Run(BACKOFFS_MS, events).value;
    RunKeepsInvariant(BACKOFFS_MS, events);
    TimeRunsForward(BACKOFFS_MS, events);
    hide Invariant, Forward, Consumed, Run;
    GapsAddUp(s, n);
  }

  // ---------------------------------------------------------------- The shipped schedule, told without its list

  /** One second, doubled for each attempt used up. */
  function Doubled(attempts: nat): nat {
    if attempts == 0 then 1000 else 2 * Doubled(attempts - 1)
  }

  function ShippedGap(attempts: nat): nat {
    if Doubled(attempts) < 30000 then Doubled(attempts) else 30000
  }

  /** The attempts that ended in a mint or a failure. */
  function UsedUp(episode: seq<Attempt>): nat {
    if episode == [] then 0 else
    match episode[|episode| - 1].end
    case Some((_, Minted)) => UsedUp(episode[..|episode| - 1]) + 1
    case Some((_, EnsureFailed)) => UsedUp(episode[..|episode| - 1]) + 1
    case _ => UsedUp(episode[..|episode| - 1])
  }

  lemma {:induction false} UsedUpIsConsumed(episode: seq<Attempt>)
    ensures Consumed(episode) == UsedUp(episode)
  {
    if episode != [] {
      UsedUpIsConsumed(episode[..|episode| - 1]);
    }
  }

  lemma {:induction false} DoublingPassesTheCap(attempts: nat)
    requires attempts >= 5
    ensures Doubled(attempts) >= 32000
  {
    if attempts == 5 {
      assert Doubled(2) == 4000 && Doubled(4) == 16000;
    } else {
      DoublingPassesTheCap(attempts - 1);
    }
  }

  lemma BackoffDoubles(attempts: nat)
    ensures Backoff(BACKOFFS_MS, attempts) == ShippedGap(attempts)
  {
    if attempts >= 5 {
      DoublingPassesTheCap(attempts);
    } else {
      assert Doubled(1) == 2000 && Doubled(2) == 4000 && Doubled(3) == 8000 && Doubled(4) == 16000;
    }
  }

  /** With the shipped schedule an awaiting tick starts an attempt if and only if none is unfinished, none since the
      last reset found the store current, and the gap since the latest one ended is over: one second doubled for each
      mint or failure, and 30 s at most. */
  lemma StartsAfterTheGap(events: seq<Event>, now: int)
    requires Run(BACKOFFS_MS, events).Some? && now >= Run(BACKOFFS_MS, events).value.now
    ensures var s := Run(BACKOFFS_MS, events).value;
            var ready := s.episode == []
                         || match s.episode[|s.episode| - 1].end
                            case None => false
                            case Some((end, outcome)) =>
                              !outcome.AlreadyCurrent? && now >= end + ShippedGap(UsedUp(s.episode));
            Apply(s, Tick(now, true)).episode == if ready then s.episode + [Attempt(now, None)] else s.episode
  {
    StartsExactlyWhenReady(BACKOFFS_MS, events, now);
    UsedUpIsConsumed(Run(BACKOFFS_MS, events).value.episode);
    BackoffDoubles(UsedUp(Run(BACKOFFS_MS, events).value.episode));
    hide Run, Backoff, Consumed, UsedUp, ShippedGap, Apply;
  }

  /** A reset, or a tick of a daemon that no longer awaits credentials, forgets every attempt but one in flight: with
      none the next awaiting tick starts one at once, whatever came before. */
  lemma ResetRearms(schedule: seq<int>, events: seq<Event>, e: Event, now: int)
    requires Run(schedule, events).Some? && Enabled(Run(schedule, events).value, e)
    requires e.Reset? || (e.Tick? && !e.awaiting)
    ensures var s, after := Run(schedule, events).value, Apply(Run(schedule, events).value, e);
            if s.episode != [] && s.episode[|s.episode| - 1].end.None?
            then after.episode == [s.episode[|s.episode| - 1]]
            else after.episode == []
                 && (now >= after.now && now >= 0 ==> Apply(after, Tick(now, true)).episode == [Attempt(now, None)])
  {
    RunKeepsInvariant(schedule, events);
    hide Run;
  }
}
