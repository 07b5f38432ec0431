/** Waiting for a port: one socket at a time, a retry after each failure, and a deadline over everything. */
module PortWaiter {
  import opened Wrappers

  datatype Kind = Deadline | AttemptTimeout | Retry

  datatype Timer = Timer(kind: Kind, due: int)

  datatype Settlement = Connected | TimedOut | Aborted | ConnectThrew

  /** Milliseconds, and whether the caller passed an abort signal. */
  datatype Config = Config(timeoutMs: nat, attemptTimeoutMs: nat, retryMs: nat, hasSignal: bool)

  /** What the runtime holds (armed timers, open sockets, the abort listener, the calls that settled the promise)
      and the handles the waiter remembers. `tries` counts the sockets opened. */
  datatype State = State(config: Config, start: int, now: int, nextHandle: nat,
                         timers: map<nat, Timer>, sockets: set<nat>, listening: bool, settlements: seq<Settlement>,
                         socket: Option<nat>, deadline: Option<nat>, attempt: Option<nat>, retry: Option<nat>,
                         done: bool, tries: nat)

  function Fresh(config: Config, now: int): State {
    State(config, now, now, 0, map[], {}, false, [], None, None, None, None, false, 0)
  }

  function Cleared(timers: map<nat, Timer>, handle: Option<nat>): map<nat, Timer> {
    if handle.Some? then timers - {handle.value} else timers
  }

  function CleanedUp(s: State): State {
    s.(timers := Cleared(s.timers, s.attempt), socket := None,
       sockets := if s.socket.Some? then s.sockets - {s.socket.value} else s.sockets)
  }

  function Finished(s: State, how: Settlement): State {
    if s.done then s else
    var c := CleanedUp(s.(done := true, timers := Cleared(Cleared(s.timers, s.deadline), s.retry)));
    c.(listening := false, settlements := s.settlements + [how])
  }

  function Failed(s: State): State {
    if s.done then s else
    var c := CleanedUp(s);
    c.(timers := c.timers[s.nextHandle := Timer(Retry, s.now + s.config.retryMs)],
       retry := Some(s.nextHandle), nextHandle := s.nextHandle + 1)
  }

  function Tried(s: State, throws: bool): State {
    if s.done then s
    else if throws then Finished(s, ConnectThrew)
    else
      s.(socket := Some(s.nextHandle), sockets := s.sockets + {s.nextHandle},
         timers := s.timers[s.nextHandle + 1 := Timer(AttemptTimeout, s.now + s.config.attemptTimeoutMs)],
         attempt := Some(s.nextHandle + 1), nextHandle := s.nextHandle + 2, tries := s.tries + 1)
  }

  /** The abort listener and the deadline are in place before the first try. */
  function Guarded(s: State): State {
    s.(listening := s.config.hasSignal, timers := map[0 := Timer(Deadline, s.now + s.config.timeoutMs)],
       deadline := Some(0), nextHandle := 1)
  }

  function Started(config: Config, now: int, aborted: bool, throws: bool): State {
    var s := Fresh(config, now);
    if config.hasSignal && aborted then Finished(s, Aborted) else
    Tried(Guarded(s), throws)
  }

  /** A socket that is still open can connect or fail; an armed timer fires once it is due; the signal can abort. */
  datatype Event =
    | SocketConnected(now: int, socket: nat)
    | SocketFailed(now: int, socket: nat)
    | Fire(now: int, handle: nat, throws: bool)
    | Abort(now: int)

  predicate Enabled(s: State, e: Event) {
    && e.now >= s.now
    && match e
       case SocketConnected(_, socket) => socket in s.sockets
       case SocketFailed(_, socket) => socket in s.sockets
       case Fire(now, handle, _) => handle in s.timers && now >= s.timers[handle].due
       case Abort(_) => s.listening
  }

  function Step(s: State, e: Event): State
    requires Enabled(s, e)
  {
    var t := s.(now := e.now);
    match e
    case SocketConnected(_, _) => Finished(t, Connected)
    case SocketFailed(_, _) => Failed(t)
    case Fire(_, handle, throws) =>
      var u := t.(timers := t.timers - {handle});
      (match s.timers[handle].kind
       case Deadline => Finished(u, TimedOut)
       case AttemptTimeout => Failed(u)
       case Retry => Tried(u, throws))
    case Abort(_) => Finished(t, Aborted)
  }

  // ---------------------------------------------------------------- The closure and its callbacks

  class Waiter {
    const config: Config
    const start: int
    var now: int
    var nextHandle: nat
    var timers: map<nat, Timer>
    var sockets: set<nat>
    var listening: bool
    var settlements: seq<Settlement>
    var socket: Option<nat>
    var deadline: Option<nat>
    var attempt: Option<nat>
    var retry: Option<nat>
    var done: bool
    var tries: nat

    ghost function View(): State
      reads this
    {
      State(config, start, now, nextHandle, timers, sockets, listening, settlements,
            socket, deadline, attempt, retry, done, tries)
    }

    constructor (config: Config, now: int, aborted: bool, throws: bool)
      ensures View() == Started(config, now, aborted, throws)
    {
      this.config, start, this.now, nextHandle := config, now, now, 0;
      timers, sockets, listening, settlements := map[], {}, false, [];
      socket, deadline, attempt, retry, done, tries := None, None, None, None, false, 0;
      new;
      if config.hasSignal && aborted {
        Finish(Aborted);
        return;
      }
      listening := config.hasSignal;
      var handle := SetTimeout(Deadline, config.timeoutMs);
      deadline := Some(handle);
      TryOnce(throws);
    }

    method SetTimeout(kind: Kind, ms: nat) returns (handle: nat)
      modifies this`timers, this`nextHandle
      ensures handle == old(nextHandle) && nextHandle == handle + 1
      ensures timers == old(timers)[handle := Timer(kind, now + ms)]
    {
      handle := nextHandle;
      nextHandle := nextHandle + 1;
      timers := timers[handle := Timer(kind, now + ms)];
    }

    method ClearTimeout(handle: Option<nat>)
      modifies this`timers
      ensures timers == Cleared(old(timers), handle)
    {
      if handle.Some? {
        timers := timers - {handle.value};
      }
    }

    method CleanupAttempt()
      modifies this`timers, this`sockets, this`socket
      ensures View() == CleanedUp(old(View()))
    {
      ClearTimeout(attempt);
      if socket.Some? {
        sockets := sockets - {socket.value};
        socket := None;
      }
    }

    method Finish(how: Settlement)
      modifies this
      ensures View() == Finished(old(View()), how)
    {
      if done {
        return;
      }
      done := true;
      ClearTimeout(deadline);
      ClearTimeout(retry);
      CleanupAttempt();
      listening := false;
      settlements := settlements + [how];
    }

    method OnFailed()
      modifies this
      ensures View() == Failed(old(View()))
    {
      if done {
        return;
      }
      CleanupAttempt();
      var handle := SetTimeout(Retry, config.retryMs);
      retry := Some(handle);
    }

    method TryOnce(throws: bool)
      modifies this
      ensures View() == Tried(old(View()), throws)
    {
      if done {
        return;
      }
      if throws {
        Finish(ConnectThrew);
        return;
      }
      socket := Some(nextHandle);
      sockets := sockets + {nextHandle};
      nextHandle := nextHandle + 1;
      tries := tries + 1;
      var handle := SetTimeout(AttemptTimeout, config.attemptTimeoutMs);
      attempt := Some(handle);
    }

    /** One callback of the event loop. */
    method Dispatch(e: Event)
      requires Enabled(View(), e)
      modifies this
      ensures View() == Step(old(View()), e)
    {
      now := e.now;
      match e {
        case SocketConnected(_, _) => Finish(Connected);
        case SocketFailed(_, _) => OnFailed();
        case Fire(_, handle, throws) =>
          var kind := timers[handle].kind;
          timers := timers - {handle};
          match kind {
            case Deadline => Finish(TimedOut);
            case AttemptTimeout => OnFailed();
            case Retry => TryOnce(throws);
          }
        case Abort(_) => Finish(Aborted);
      }
    }
  }

  // ---------------------------------------------------------------- Every order of events

  function Run(config: Config, start: int, aborted: bool, throws: bool, events: seq<Event>): Option<State> {
    if events == [] then Some(Started(config, start, aborted, throws)) else
    match Run(config, start, aborted, throws, events[..|events| - 1])
    case None => None
    case Some(s) => if Enabled(s, events[|events| - 1]) then Some(Step(s, events[|events| - 1])) else None
  }

  /** Nothing is left behind: no timer, no socket, no listener. */
  predicate Released(s: State) {
    s.timers == map[] && s.sockets == {} && !s.listening
  }

  /** One socket and its time-out. */
  predicate Connecting(s: State, d: nat) {
    && s.socket.Some? && s.sockets == {s.socket.value}
    && s.attempt.Some? && s.attempt.value != d && s.timers.Keys == {d, s.attempt.value}
    && s.timers[s.attempt.value].kind == AttemptTimeout
  }

  /** No socket, one retry to come. */
  predicate Pausing(s: State, d: nat) {
    && s.socket.None? && s.sockets == {}
    && s.retry.Some? && s.retry.value != d && s.timers.Keys == {d, s.retry.value}
    && s.timers[s.retry.value].kind == Retry
  }

  predicate Waiting(s: State) {
    && s.settlements == [] && s.listening == s.config.hasSignal
    && s.deadline == Some(0) && 0 in s.timers && s.timers[0] == Timer(Deadline, s.start + s.config.timeoutMs)
    && s.start <= s.now && s.nextHandle >= 1
    && (forall h | h in s.timers :: h < s.nextHandle)
    && (Connecting(s, 0) || Pausing(s, 0))
  }

  /** Before the promise settles there is exactly one of a live socket and a pending retry, and the deadline; after,
      nothing; and it settles once. */
  predicate Sound(s: State) {
    if s.done then Released(s) && |s.settlements| == 1 else Waiting(s)
  }

  lemma FinishedIsReleased(s: State, how: Settlement)
    requires !s.done && s.settlements == [] && s.deadline == Some(0)
    requires forall h | h in s.timers :: h == 0 || Some(h) == s.attempt || Some(h) == s.retry
    requires s.sockets == (if s.socket.Some? then {s.socket.value} else {})
    ensures Released(Finished(s, how)) && Finished(s, how).settlements == [how] && Finished(s, how).done
  {
    assert Finished(s, how).timers.Keys == {};
  }

  lemma StepKeepsSound(s: State, e: Event)
    requires Sound(s) && Enabled(s, e)
    ensures Sound(Step(s, e))
    ensures !s.done
  {
    assert !s.done;
    var t := s.(now := e.now);
    match e
    case SocketConnected(_, _) => FinishedIsReleased(t, Connected);
    case SocketFailed(_, _) =>
    case Abort(_) => FinishedIsReleased(t, Aborted);
    case Fire(_, handle, throws) =>
      var u := t.(timers := t.timers - {handle});
      match s.timers[handle].kind
      case Deadline => FinishedIsReleased(u, TimedOut);
      case AttemptTimeout =>
      case Retry => if throws { FinishedIsReleased(u, ConnectThrew); }
  }

  lemma {:induction false} WaiterIsSound(config: Config, start: int, aborted: bool, throws: bool, events: seq<Event>)
    requires Run(config, start, aborted, throws, events).Some?
    ensures Sound(Run(config, start, aborted, throws, events).value)
  {
    if events == [] {
      var s := Fresh(config, start);
      if config.hasSignal && aborted {
        assert Finished(s, Aborted).timers == map[];
      } else if throws {
        FinishedIsReleased(Guarded(s), ConnectThrew);
      }
    } else {
      WaiterIsSound(config, start, aborted, throws, events[..|events| - 1]);
      StepKeepsSound(Run(config, start, aborted, throws, events[..|events| - 1]).value, events[|events| - 1]);
    }
  }

  /** Once the promise is settled nothing can call back any more, so it is settled once and for all. */
  lemma NothingHappensAfterSettling(config: Config, start: int, aborted: bool, throws: bool, events: seq<Event>,
                                    e: Event)
    requires Run(config, start, aborted, throws, events).Some?
    requires Run(config, start, aborted, throws, events).value.done
    ensures !Enabled(Run(config, start, aborted, throws, events).value, e)
  {
    WaiterIsSound(config, start, aborted, throws, events);
  }

  /** The events that settle a wait, and how. */
  function Decides(s: State, e: Event): Option<Settlement>
    requires Enabled(s, e)
  {
    match e
    case SocketConnected(_, _) => Some(Connected)
    case SocketFailed(_, _) => None
    case Abort(_) => Some(Aborted)
    case Fire(_, handle, throws) =>
      match s.timers[handle].kind
      case Deadline => Some(TimedOut)
      case AttemptTimeout => None
      case Retry => if throws then Some(ConnectThrew) else None
  }

  /** The first deciding event settles the wait its way; every other one leaves it waiting. */
  lemma FirstDecisionSettles(config: Config, start: int, aborted: bool, throws: bool, events: seq<Event>)
    requires events != [] && Run(config, start, aborted, throws, events).Some?
    ensures var s, t := Run(config, start, aborted, throws, events[..|events| - 1]).value,
                        Run(config, start, aborted, throws, events).value;
            && s.settlements == []
            && t.settlements == (match Decides(s, events[|events| - 1]) case None => [] case Some(how) => [how])
            && (t.done <==> Decides(s, events[|events| - 1]).Some?)
  {
    var s := Run(config, start, aborted, throws, events[..|events| - 1]).value;
    WaiterIsSound(config, start, aborted, throws, events[..|events| - 1]);
    WaiterIsSound(config, start, aborted, throws, events);
    StepKeepsSound(s, events[|events| - 1]);
    hide Run, Enabled;
  }

  // ---------------------------------------------------------------- Time

  /** No armed timer is late. */
  predicate Punctual(s: State) {
    forall h | h in s.timers :: s.now <= s.timers[h].due
  }

  /** Whatever the sockets do, a wait whose timers fire on time is settled by its deadline, and until then a timer is
      always there to move it on. */
  lemma DeadlineBoundsTheWait(config: Config, start: int, aborted: bool, throws: bool, events: seq<Event>)
    requires Run(config, start, aborted, throws, events).Some?
    requires Punctual(Run(config, start, aborted, throws, events).value)
    ensures var s := Run(config, start, aborted, throws, events).value;
            !s.done ==>
              && s.now <= s.start + s.config.timeoutMs
              && Enabled(s, Fire(s.start + s.config.timeoutMs, 0, false))
              && Step(s, Fire(s.start + s.config.timeoutMs, 0, false)).settlements == [TimedOut]
  {
    WaiterIsSound(config, start, aborted, throws, events);
    hide Run;
  }

  /** Each try but the first came at least the retry delay after the one before. */
  predicate Spaced(s: State) {
    && (s.tries >= 1 ==> (s.tries - 1) * s.config.retryMs <= s.now - s.start)
    && (!s.done ==>
          && s.tries >= 1
          && (s.retry.Some? && s.retry.value in s.timers ==>
                s.timers[s.retry.value].due >= s.start + s.tries * s.config.retryMs))
  }

  lemma StepKeepsSpaced(s: State, e: Event)
    requires Waiting(s) && !s.done && Spaced(s) && Enabled(s, e)
    ensures Spaced(Step(s, e))
  {
    assert s.tries * s.config.retryMs == (s.tries - 1) * s.config.retryMs + s.config.retryMs;
  }

  lemma {:induction false} TriesAreSpaced(config: Config, start: int, aborted: bool, throws: bool, events: seq<Event>)
    requires Run(config, start, aborted, throws, events).Some?
    ensures Spaced(Run(config, start, aborted, throws, events).value)
  {
    if events != [] {
      var before := events[..|events| - 1];
      TriesAreSpaced(config, start, aborted, throws, before);
      WaiterIsSound(config, start, aborted, throws, before);
      StepKeepsSound(Run(config, start, aborted, throws, before).value, events[|events| - 1]);
      StepKeepsSpaced(Run(config, start, aborted, throws, before).value, events[|events| - 1]);
    }
  }

  /** What a fired timer was for. */
  function Fired(config: Config, start: int, aborted: bool, throws: bool, before: seq<Event>, e: Event): Option<Kind> {
    var run := Run(config, start, aborted, throws, before);
    if e.Fire? && run.Some? && e.handle in run.value.timers then Some(run.value.timers[e.handle].kind) else None
  }

  /** When the latest try began, told from the events. */
  function LastTry(config: Config, start: int, aborted: bool, throws: bool, events: seq<Event>): int {
    if events == [] then start else
    var before, e := events[..|events| - 1], events[|events| - 1];
    if Fired(config, start, aborted, throws, before, e) == Some(Retry) then e.now
    else LastTry(config, start, aborted, throws, before)
  }

  /** When the latest try ended. */
  function LastEnd(config: Config, start: int, aborted: bool, throws: bool, events: seq<Event>): int {
    if events == [] then start else
    var before, e := events[..|events| - 1], events[|events| - 1];
    if e.SocketFailed? || Fired(config, start, aborted, throws, before, e) == Some(AttemptTimeout) then e.now
    else LastEnd(config, start, aborted, throws, before)
  }

  predicate Timed(s: State, lastTry: int, lastEnd: int) {
    !s.done ==>
      if s.socket.Some? then
        && s.attempt.Some? && s.attempt.value in s.timers
        && s.timers[s.attempt.value].due == lastTry + s.config.attemptTimeoutMs
      else
        s.retry.Some? && s.retry.value in s.timers && s.timers[s.retry.value].due == lastEnd + s.config.retryMs
  }

  lemma StepStaysTimed(s: State, e: Event, lastTry: int, lastEnd: int)
    requires Sound(s) && Enabled(s, e) && Timed(s, lastTry, lastEnd)
    ensures var kind := if e.Fire? then Some(s.timers[e.handle].kind) else None;
            Timed(Step(s, e), if kind == Some(Retry) then e.now else lastTry,
                  if e.SocketFailed? || kind == Some(AttemptTimeout) then e.now else lastEnd)
  {
  }

  lemma StepKeepsConfig(s: State, e: Event)
    requires Enabled(s, e)
    ensures Step(s, e).config == s.config && Step(s, e).start == s.start && Step(s, e).now == e.now
  {
  }

  /** Every try has its full time-out and every pause its full delay: while a socket is open its timer is due one
      attempt time-out after the try began, and otherwise the retry is due one delay after the try ended. */
  lemma {:induction false} TimersAreExact(config: Config, start: int, aborted: bool, throws: bool, events: seq<Event>)
    requires Run(config, start, aborted, throws, events).Some?
    ensures var s := Run(config, start, aborted, throws, events).value;
            && s.config == config && s.start == start
            && Timed(s, LastTry(config, start, aborted, throws, events),
                     LastEnd(config, start, aborted, throws, events))
  {
    if events != [] {
      var before, e := events[..|events| - 1], events[|events| - 1];
      TimersAreExact(config, start, aborted, throws, before);
      WaiterIsSound(config, start, aborted, throws, before);
      hide Timed, Sound, Step;
      var s := Run(config, start, aborted, throws, before).value;
      StepKeepsConfig(s, e);
      StepStaysTimed(s, e, LastTry(config, start, aborted, throws, before),
                     LastEnd(config, start, aborted, throws, before));
    }
  }

  predicate NoneDueBefore(s: State, now: int) {
    forall h | h in s.timers :: now <= s.timers[h].due
  }

  /** Events that come no later than the timers then armed. */
  predicate OnTime(config: Config, start: int, aborted: bool, throws: bool, events: seq<Event>) {
    events == []
    || (var before := events[..|events| - 1];
        && OnTime(config, start, aborted, throws, before)
        && (Run(config, start, aborted, throws, before).Some? ==>
              NoneDueBefore(Run(config, start, aborted, throws, before).value, events[|events| - 1].now)))
  }

  /** One time-out and one delay for each try so far. */
  function Rounds(s: State): int {
    s.tries * (s.config.attemptTimeoutMs + s.config.retryMs)
  }

  predicate Brisk(s: State) {
    !s.done ==>
      && s.tries >= 1
      && (if s.socket.Some? then
            && s.attempt.Some? && s.attempt.value in s.timers
            && s.timers[s.attempt.value].due <= s.start + Rounds(s) - s.config.retryMs
          else
            && s.retry.Some? && s.retry.value in s.timers
            && s.timers[s.retry.value].due <= s.start + Rounds(s))
  }

  lemma OneMoreRound(s: State, t: State)
    requires t.config == s.config && t.tries == s.tries + 1
    ensures Rounds(t) == Rounds(s) + s.config.attemptTimeoutMs + s.config.retryMs
  {
  }

  lemma StepStaysBrisk(s: State, e: Event)
    requires Sound(s) && Enabled(s, e) && Brisk(s) && NoneDueBefore(s, e.now)
    ensures Brisk(Step(s, e))
  {
    var t := Step(s, e);
    StepKeepsConfig(s, e);
    if t.tries == s.tries + 1 {
      OneMoreRound(s, t);
    }
    assert t.tries == s.tries ==> Rounds(t) == Rounds(s);
    hide Rounds;
  }

  /** With timers on time and nothing listening yet the waiter keeps trying: n tries are used up in n time-outs and
      delays at most. */
  lemma {:induction false} TriesKeepComing(config: Config, start: int, aborted: bool, throws: bool, events: seq<Event>)
    requires Run(config, start, aborted, throws, events).Some? && OnTime(config, start, aborted, throws, events)
    ensures Brisk(Run(config, start, aborted, throws, events).value)
  {
    if events != [] {
      var before, e := events[..|events| - 1], events[|events| - 1];
      TriesKeepComing(config, start, aborted, throws, before);
      WaiterIsSound(config, start, aborted, throws, before);
      hide Brisk, Sound, Step, NoneDueBefore;
      StepStaysBrisk(Run(config, start, aborted, throws, before).value, e);
    }
  }

  /** A wait settles before it begins when its signal is aborted already or the first connection throws, in this order;
      otherwise one try is under way. */
  lemma StartDecides(config: Config, start: int, aborted: bool, throws: bool)
    ensures var s := Started(config, start, aborted, throws);
            && s.settlements == (if config.hasSignal && aborted then [Aborted]
                                 else if throws then [ConnectThrew] else [])
            && (s.settlements == [] ==> s.tries == 1 && s.socket.Some? && s.listening == config.hasSignal)
            && (s.settlements != [] ==> s.tries == 0 && Released(s))
  {
    WaiterIsSound(config, start, aborted, throws, []);
  }
}
