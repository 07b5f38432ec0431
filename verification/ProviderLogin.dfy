/** The loopback receiver of a provider sign-in: flows that own a port until they settle, and outcomes that
    outlive the port until they are collected, cancelled or reaped. */
module ProviderLogin {
  import opened Wrappers
  import opened Text

  /** Milliseconds. */
  const FLOW_TIMEOUT_MS := 600000
  const RESULT_RETENTION_MS := 300000

  const TIMED_OUT := "Timed out waiting for the sign-in to complete."
  const NO_REASON := "Authorization failed without an error message."

  datatype Outcome = Granted(code: string, state: string, redirectUri: string) | Refused(message: string)

  /** The query parameters of a redirect; a missing one is empty. */
  datatype Query = Query(code: string, error: string, description: string, state: string)

  function Joined(error: string, description: string): string {
    if error != "" && description != "" then error + ": " + description else error + description
  }

  function Answer(q: Query, redirectUri: string): Outcome {
    var code := Trim(q.code);
    if code != "" then Granted(code, q.state, redirectUri) else
    var message := Joined(Trim(q.error), Trim(q.description));
    Refused(if message == "" then NO_REASON else message)
  }

  /** A flow: the port it was given, whether it still listens, its two timers and its promise. */
  datatype Slot = Slot(port: nat, redirectUri: string, since: int, settled: bool, listening: bool,
                       timer: Option<int>, reaper: Option<int>, promise: Option<Outcome>)

  function Opened(port: nat, redirectUri: string, now: int): Slot {
    Slot(port, redirectUri, now, false, true, Some(now + FLOW_TIMEOUT_MS), None, None)
  }

  function Settled(f: Slot, outcome: Outcome, now: int): Slot {
    if f.settled then f else
    f.(settled := true, listening := false, timer := None, promise := Some(outcome),
       reaper := Some(now + RESULT_RETENTION_MS))
  }

  /** Every flow ever opened, by id, and the ids that a wait or a cancel still finds. */
  datatype State = State(now: int, nextId: nat, slots: map<nat, Slot>, live: set<nat>)

  function Opening(s: State, now: int, port: nat, redirectUri: string): State {
    State(now, s.nextId + 1, s.slots[s.nextId := Opened(port, redirectUri, now)], s.live + {s.nextId})
  }

  datatype Event =
    | Listen(now: int, port: nat, redirectUri: string)
    | Request(now: int, id: nat, onPath: bool, query: Query)
    | ServerFault(now: int, id: nat, message: string)
    | Timeout(now: int, id: nat)
    | Cancel(now: int, id: nat, reason: string)
    | Reap(now: int, id: nat)

  /** The operating system refuses a port that is still bound; a timer fires only when armed and due. */
  predicate Enabled(s: State, e: Event) {
    && e.now >= s.now
    && match e
       case Listen(_, port, _) => forall id | id in s.slots && s.slots[id].listening :: s.slots[id].port != port
       case Request(_, id, _, _) => id in s.slots
       case ServerFault(_, id, _) => id in s.slots
       case Timeout(now, id) => id in s.slots && s.slots[id].timer.Some? && now >= s.slots[id].timer.value
       case Cancel(_, _, _) => true
       case Reap(now, id) => id in s.slots && s.slots[id].reaper.Some? && now >= s.slots[id].reaper.value
  }

  function At(s: State, id: nat, f: Slot): State {
    s.(slots := s.slots[id := f])
  }

  /** The outcome is no longer kept for a later wait. */
  function Dropped(s: State, id: nat): State
    requires id in s.slots
  {
    At(s, id, s.slots[id].(reaper := None)).(live := s.live - {id})
  }

  function Step(s: State, e: Event): State
    requires Enabled(s, e)
  {
    var t := s.(now := e.now);
    match e
    case Listen(now, port, redirectUri) => Opening(s, now, port, redirectUri)
    case Request(now, id, onPath, query) =>
      if onPath && id in s.live then At(t, id, Settled(s.slots[id], Answer(query, s.slots[id].redirectUri), now))
      else t
    case ServerFault(now, id, message) =>
      if id in s.live then At(t, id, Settled(s.slots[id], Refused(message), now)) else t
    case Timeout(now, id) => At(t, id, Settled(s.slots[id], Refused(TIMED_OUT), now))
    case Cancel(now, id, reason) =>
      if id in s.live && id in s.slots then
        Dropped(At(t, id, Settled(s.slots[id], Refused("OAuth flow " + reason), now)), id)
      else t
    case Reap(_, id) => Dropped(t, id)
  }

  const INITIAL := State(0, 1, map[], {})

  function Run(events: seq<Event>): Option<State> {
    if events == [] then Some(INITIAL) else
    match Run(events[..|events| - 1])
    case None => None
    case Some(s) => if Enabled(s, events[|events| - 1]) then Some(Step(s, events[|events| - 1])) else None
  }

  // ---------------------------------------------------------------- The module's objects

  class Flow {
    const id: nat
    const port: nat
    const redirectUri: string
    const since: int
    var settled: bool
    var listening: bool
    var timer: Option<int>
    var reaper: Option<int>
    var promise: Option<Outcome>

    constructor (id: nat, port: nat, redirectUri: string, now: int)
      ensures this.id == id && View() == Opened(port, redirectUri, now)
    {
      this.id, this.port, this.redirectUri, since := id, port, redirectUri, now;
      settled, listening, timer, reaper, promise := false, true, Some(now + FLOW_TIMEOUT_MS), None, None;
    }

    ghost function View(): Slot
      reads this
    {
      Slot(port, redirectUri, since, settled, listening, timer, reaper, promise)
    }

    method Settle(outcome: Outcome, now: int)
      modifies this
      ensures View() == Settled(old(View()), outcome, now)
    {
      if settled {
        return;
      }
      settled := true;
      timer := None;
      listening := false;
      promise := Some(outcome);
      reaper := Some(now + RESULT_RETENTION_MS);
    }
  }

  ghost function Slots(made: map<nat, Flow>): map<nat, Slot>
    reads made.Values
  {
    map id | id in made :: made[id].View()
  }

  lemma SlotsGrow(made: map<nat, Flow>, id: nat, flow: Flow)
    requires id !in made
    ensures Slots(made[id := flow]) == Slots(made)[id := flow.View()]
  {
  }

  class Receiver {
    var flows: map<nat, Flow>
    var nextFlowId: nat
    /** Every flow opened so far: a promise is still held by those who waited after the flow is dropped. */
    ghost var made: map<nat, Flow>
    ghost var clock: int

    ghost predicate Valid()
      reads this
    {
      && (forall id | id in flows :: id in made && made[id] == flows[id])
      && (forall id | id in made :: made[id].id == id && id < nextFlowId)
    }

    ghost function View(): State
      reads this, made.Values
      requires Valid()
    {
      State(clock, nextFlowId, Slots(made), flows.Keys)
    }

    constructor ()
      ensures Valid() && View() == INITIAL
    {
      flows, nextFlowId, made, clock := map[], 1, map[], 0;
    }

    /** The callback of a port the operating system granted. */
    method Listen(now: int, port: nat, redirectUri: string) returns (flowId: nat)
      requires Valid()
      modifies this
      ensures Valid() && flowId == old(nextFlowId)
      ensures View() == Opening(old(View()), now, port, redirectUri)
    {
      flowId := nextFlowId;
      nextFlowId := nextFlowId + 1;
      var flow := new Flow(flowId, port, redirectUri, now);
      SlotsGrow(made, flowId, flow);
      hide Slots;
      flows := flows[flowId := flow];
      made := made[flowId := flow];
      clock := now;
    }

    /** A settle seen from the module: one slot changes, and the flow can still be found. */
    method SettleFlow(flow: Flow, outcome: Outcome, now: int)
      requires Valid() && flow in made.Values
      modifies flow
      ensures Valid()
      ensures View() == At(old(View()), flow.id, Settled(old(View()).slots[flow.id], outcome, now))
    {
      flow.Settle(outcome, now);
      hide Settled;
    }

    method OnRequest(now: int, flowId: nat, onPath: bool, query: Query)
      requires Valid() && Enabled(View(), Request(now, flowId, onPath, query))
      modifies this`clock, made.Values
      ensures Valid() && View() == Step(old(View()), Request(now, flowId, onPath, query))
    {
      hide Trim;
      clock := now;
      if onPath && flowId in flows {
        var flow := flows[flowId];
        var code := Trim(query.code);
        if code == "" {
          var message := Joined(Trim(query.error), Trim(query.description));
          SettleFlow(flow, Refused(if message == "" then NO_REASON else message), now);
        } else {
          SettleFlow(flow, Granted(code, query.state, flow.redirectUri), now);
        }
      }
    }

    method OnServerFault(now: int, flowId: nat, message: string)
      requires Valid() && Enabled(View(), ServerFault(now, flowId, message))
      modifies this`clock, made.Values
      ensures Valid() && View() == Step(old(View()), ServerFault(now, flowId, message))
    {
      clock := now;
      if flowId in flows {
        SettleFlow(flows[flowId], Refused(message), now);
      }
    }

    method OnTimeout(now: int, flow: Flow)
      requires Valid() && flow in made.Values && Enabled(View(), Timeout(now, flow.id))
      modifies this`clock, flow
      ensures Valid() && View() == Step(old(View()), Timeout(now, flow.id))
    {
      clock := now;
      SettleFlow(flow, Refused(TIMED_OUT), now);
    }

    /** None is the rejection of an unknown flow; otherwise the caller shares the flow's promise. */
    method Wait(flowId: nat) returns (flow: Option<Flow>)
      requires Valid()
      ensures flow.Some? <==> flowId in View().live
      ensures flow.Some? ==> flowId in made && flow.value == made[flowId]
    {
      flow := if flowId in flows then Some(flows[flowId]) else None;
    }

    method Drop(flow: Flow)
      requires Valid() && flow in made.Values
      modifies this`flows, flow
      ensures Valid() && View() == Dropped(old(View()), flow.id)
    {
      flow.reaper := None;
      flows := flows - {flow.id};
    }

    method Cancel(now: int, flowId: nat, reason: string) returns (known: bool)
      requires Valid() && Enabled(View(), Event.Cancel(now, flowId, reason))
      modifies this`flows, this`clock, made.Values
      ensures Valid()
      ensures known <==> flowId in old(View()).live
      ensures View() == Step(old(View()), Event.Cancel(now, flowId, reason))
    {
      hide Answer, Settled;
      clock := now;
      known := flowId in flows;
      if known {
        SettleFlow(flows[flowId], Refused("OAuth flow " + reason), now);
        Drop(flows[flowId]);
      }
    }

    method OnReap(now: int, flow: Flow)
      requires Valid() && flow in made.Values && Enabled(View(), Reap(now, flow.id))
      modifies this`flows, this`clock, flow
      ensures Valid() && View() == Step(old(View()), Reap(now, flow.id))
    {
      hide Answer;
      clock := now;
      Drop(flow);
    }
  }

  // ---------------------------------------------------------------- What every state keeps

  /** The port, the sign-in timer and the pending promise exist exactly until the flow settles; a settled flow
      that can still be found has a reaper; an unsettled one can always be found. */
  predicate SlotSound(f: Slot, live: bool) {
    && (f.listening <==> !f.settled)
    && (f.promise.None? <==> !f.settled)
    && f.timer == (if f.settled then None else Some(f.since + FLOW_TIMEOUT_MS))
    && (f.reaper.Some? <==> f.settled && live)
    && (!f.settled ==> live)
  }

  ghost predicate Sound(s: State) {
    && s.nextId >= 1
    && (forall id :: id in s.slots <==> 1 <= id < s.nextId)
    && (forall id | id in s.live :: id in s.slots)
    && (forall id | id in s.slots :: SlotSound(s.slots[id], id in s.live))
    && (forall i, j | i in s.slots && j in s.slots && i != j && s.slots[i].listening && s.slots[j].listening ::
          s.slots[i].port != s.slots[j].port)
  }

  lemma OpenKeepsSound(s: State, e: Event)
    requires Sound(s) && Enabled(s, e) && e.Listen?
    ensures Sound(Step(s, e))
  {
  }

  /** Any other change to one flow that keeps its port, and does not start listening again. */
  lemma ChangeKeepsSound(s: State, now: int, id: nat, f: Slot, live: set<nat>)
    requires Sound(s) && id in s.slots && SlotSound(f, id in live)
    requires f.port == s.slots[id].port && (f.listening ==> s.slots[id].listening)
    requires forall i | i != id :: i in live <==> i in s.live
    ensures Sound(State(now, s.nextId, s.slots[id := f], live))
  {
  }

  lemma StepKeepsSound(s: State, e: Event)
    requires Sound(s) && Enabled(s, e)
    ensures Sound(Step(s, e))
  {
    hide Answer;
    if e.Listen? {
      OpenKeepsSound(s, e);
    } else if e.id in s.slots {
      var after := Step(s, e);
      assert SlotSound(s.slots[e.id], e.id in s.live);
      assert after.slots == s.slots[e.id := after.slots[e.id]];
      ChangeKeepsSound(s, e.now, e.id, after.slots[e.id], after.live);
    }
  }

  /** In every run a flow holds its port exactly until its promise is settled, and no two hold the same port. */
  lemma {:induction false} FlowsAreSound(events: seq<Event>)
    requires Run(events).Some?
    ensures Sound(Run(events).value)
  {
    if events != [] {
      FlowsAreSound(events[..|events| - 1]);
      StepKeepsSound(Run(events[..|events| - 1]).value, events[|events| - 1]);
    }
  }

  /** A fixed port can be opened again exactly when every flow that ever had it has its outcome. */
  lemma PortReopensOnceSettled(events: seq<Event>, now: int, port: nat, redirectUri: string)
    requires Run(events).Some? && now >= Run(events).value.now
    ensures var s := Run(events).value;
            Enabled(s, Listen(now, port, redirectUri))
            <==> forall id | id in s.slots && s.slots[id].port == port :: s.slots[id].promise.Some?
  {
    FlowsAreSound(events);
    hide Run;
    var s := Run(events).value;
    assert forall id | id in s.slots :: SlotSound(s.slots[id], id in s.live);
    assert forall id | id in s.slots :: s.slots[id].listening <==> s.slots[id].promise.None?;
  }

  // ---------------------------------------------------------------- The first event decides

  /** The redirect addresses of the flows opened so far, in order. */
  function Addresses(events: seq<Event>): seq<string> {
    if events == [] then [] else
    Addresses(events[..|events| - 1])
    + match events[|events| - 1] case Listen(_, _, redirectUri) => [redirectUri] case _ => []
  }

  /** What an event says about an unsettled flow. */
  function Verdict(e: Event, id: nat, redirectUri: string): Option<Outcome> {
    match e
    case Listen(_, _, _) => None
    case Request(_, i, onPath, query) => if i == id && onPath then Some(Answer(query, redirectUri)) else None
    case ServerFault(_, i, message) => if i == id then Some(Refused(message)) else None
    case Timeout(_, i) => if i == id then Some(Refused(TIMED_OUT)) else None
    case Cancel(_, i, reason) => if i == id then Some(Refused("OAuth flow " + reason)) else None
    case Reap(_, _) => None
  }

  /** The first verdict on a flow after it was opened, with its time. */
  function Decided(events: seq<Event>, id: nat): Option<(int, Outcome)> {
    if events == [] then None else
    var before, e := events[..|events| - 1], events[|events| - 1];
    if Decided(before, id).Some? || !(1 <= id <= |Addresses(before)|) then Decided(before, id)
    else match Verdict(e, id, Addresses(before)[id - 1])
         case None => None
         case Some(outcome) => Some((e.now, outcome))
  }

  ghost predicate MatchesHistory(s: State, events: seq<Event>, id: nat) {
    && s.nextId == |Addresses(events)| + 1
    && (id in s.slots ==>
          && 1 <= id <= |Addresses(events)|
          && s.slots[id].redirectUri == Addresses(events)[id - 1]
          && s.slots[id].promise == (match Decided(events, id) case None => None case Some(d) => Some(d.1))
          && (s.slots[id].reaper.Some? && Decided(events, id).Some? ==>
                s.slots[id].reaper.value == Decided(events, id).value.0 + RESULT_RETENTION_MS))
  }

  /** One event on a flow already open: the verdict settles a pending promise and nothing touches a settled one. */
  lemma StepFollowsVerdict(s: State, e: Event, id: nat)
    requires Enabled(s, e) && id in s.slots && SlotSound(s.slots[id], id in s.live) && s.nextId !in s.slots
    ensures id in Step(s, e).slots
    ensures var f, g := s.slots[id], Step(s, e).slots[id];
            && g.redirectUri == f.redirectUri
            && g.promise == (if f.promise.Some? then f.promise else Verdict(e, id, f.redirectUri))
            && (g.reaper.Some? ==>
                  if f.promise.Some? then g.reaper == f.reaper else g.reaper == Some(e.now + RESULT_RETENTION_MS))
  {
    hide Answer;
  }

  /** The only flow an event brings into being is the one it opens. */
  lemma StepOpensOne(s: State, e: Event)
    requires Enabled(s, e)
    ensures Step(s, e).nextId == s.nextId + (if e.Listen? then 1 else 0)
    ensures Step(s, e).slots.Keys == s.slots.Keys + (if e.Listen? then {s.nextId} else {})
    ensures e.Listen? ==> Step(s, e).slots[s.nextId] == Opened(e.port, e.redirectUri, e.now)
  {
    hide Answer;
  }

  lemma StepMatchesHistory(s: State, events: seq<Event>, id: nat)
    requires events != [] && Run(events).Some? && Run(events[..|events| - 1]) == Some(s)
    requires Sound(s) && MatchesHistory(s, events[..|events| - 1], id)
    requires id !in s.slots ==> Decided(events[..|events| - 1], id).None?
    ensures MatchesHistory(Run(events).value, events, id)
    ensures id !in Run(events).value.slots ==> Decided(events, id).None?
  {
    var e := events[|events| - 1];
    StepOpensOne(s, e);
    if id in s.slots {
      StepFollowsVerdict(s, e, id);
    }
    hide Step, Verdict, Enabled, SlotSound;
  }

  /** A flow's promise is settled by the first callback, fault, timeout or cancel that reaches it, with that
      event's outcome, and by nothing else. */
  lemma {:induction false} FirstEventDecides(events: seq<Event>, id: nat)
    requires Run(events).Some?
    ensures MatchesHistory(Run(events).value, events, id)
    ensures id !in Run(events).value.slots ==> Decided(events, id).None?
  {
    if events != [] {
      var before := events[..|events| - 1];
      FirstEventDecides(before, id);
      FlowsAreSound(before);
      StepMatchesHistory(Run(before).value, events, id);
    }
  }

  /** Whoever holds the promise, from a wait before the callback or after it, reads the same outcome for ever. */
  lemma {:induction false} OutcomeIsFinal(events: seq<Event>, more: seq<Event>, id: nat)
    requires Run(events).Some? && Run(events + more).Some?
    requires id in Run(events).value.slots && Run(events).value.slots[id].promise.Some?
    ensures id in Run(events + more).value.slots
    ensures Run(events + more).value.slots[id].promise == Run(events).value.slots[id].promise
  {
    if more == [] {
      assert events + more == events;
    } else {
      var before := more[..|more| - 1];
      assert (events + more)[..|events + more| - 1] == events + before;
      OutcomeIsFinal(events, before, id);
      FlowsAreSound(events + before);
      hide Answer;
    }
  }

  // ---------------------------------------------------------------- How long an outcome can be collected

  predicate Cancels(events: seq<Event>, id: nat) {
    exists e :: e in events && e.Cancel? && e.id == id
  }

  /** A wait finds every flow nobody cancelled until at least the retention after its outcome, and its promise is
      the first outcome: a callback that beats the wait is never lost. */
  lemma {:induction false} WaitWithinRetention(events: seq<Event>, id: nat)
    requires Run(events).Some? && id in Run(events).value.slots && !Cancels(events, id)
    requires var d := Decided(events, id);
             d.Some? ==> Run(events).value.now < d.value.0 + RESULT_RETENTION_MS
    ensures id in Run(events).value.live
  {
    var before, e := events[..|events| - 1], events[|events| - 1];
    var s, t := Run(before).value, Run(events).value;
    FlowsAreSound(before);
    FirstEventDecides(before, id);
    assert !e.Cancel? || e.id != id by { assert e in events; }
    if id in s.slots {
      assert forall c | c in before :: c in events;
      assert Decided(before, id).Some? ==> Decided(events, id) == Decided(before, id);
      WaitWithinRetention(before, id);
    }
  }

  /** Timers that fire on time: nothing happens after an armed timer's moment before it has fired. */
  ghost predicate Prompt(events: seq<Event>) {
    events != [] ==>
      && Prompt(events[..|events| - 1])
      && (Run(events).Some? ==> NothingOverdue(Run(events).value))
  }

  ghost predicate NothingOverdue(s: State) {
    forall id | id in s.slots ::
      && (s.slots[id].timer.Some? ==> s.now <= s.slots[id].timer.value)
      && (s.slots[id].reaper.Some? ==> s.now <= s.slots[id].reaper.value)
  }

  /** With prompt timers no flow keeps its port longer than its time-out, and none keeps its outcome longer than the
      retention: a later wait is told the flow is unknown. */
  lemma NothingOutlivesItsTimer(events: seq<Event>, id: nat)
    requires Run(events).Some? && Prompt(events) && id in Run(events).value.slots
    ensures var s := Run(events).value;
            && (s.slots[id].listening ==> s.now <= s.slots[id].since + FLOW_TIMEOUT_MS)
            && (id in s.live && Decided(events, id).Some? ==>
                  s.now <= Decided(events, id).value.0 + RESULT_RETENTION_MS)
  {
    FlowsAreSound(events);
    FirstEventDecides(events, id);
  }

  /** A cancelled flow has its outcome, its port is free, and no wait finds it ever again. */
  lemma {:induction false} CancelIsFinal(events: seq<Event>, cancel: Event, more: seq<Event>)
    requires cancel.Cancel? && Run(events).Some? && cancel.id in Run(events).value.slots
    requires Run(events + [cancel] + more).Some?
    ensures var s := Run(events + [cancel] + more).value;
            cancel.id in s.slots && cancel.id !in s.live && !s.slots[cancel.id].listening
            && s.slots[cancel.id].promise.Some?
  {
    hide Answer;
    var all := events + [cancel] + more;
    var before := all[..|all| - 1];
    FlowsAreSound(events);
    FlowsAreSound(all);
    if more == [] {
      assert before == events && all[|all| - 1] == cancel;
    } else {
      assert before == events + [cancel] + more[..|more| - 1];
      CancelIsFinal(events, cancel, more[..|more| - 1]);
      FlowsAreSound(before);
    }
  }
}
