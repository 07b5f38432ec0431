/** What a sign-in comes to, told from the query of the redirect and from what each flow was opened with. */
module LoginOutcomes {
  import opened Wrappers
  import opened Text
  import opened ProviderLogin

  // ---------------------------------------------------------------- What a flow was opened with

  datatype Opening = Opening(now: int, port: nat, redirectUri: string)

  /** The listeners opened so far, in order: the flow of the i-th has the id i + 1. */
  function Openings(events: seq<Event>): seq<Opening> {
    if events == [] then [] else
    match events[|events| - 1]
    case Listen(now, port, redirectUri) => Openings(events[..|events| - 1]) + [Opening(now, port, redirectUri)]
    case _ => Openings(events[..|events| - 1])
  }

  ghost predicate KeepsOpening(s: State, openings: seq<Opening>) {
    && s.nextId == |openings| + 1
    && (forall id :: id in s.slots <==> 1 <= id <= |openings|)
    && (forall id | id in s.slots ::
          Opening(s.slots[id].since, s.slots[id].port, s.slots[id].redirectUri) == openings[id - 1])
  }

  lemma StepKeepsOpening(s: State, e: Event, openings: seq<Opening>)
    requires Enabled(s, e) && Sound(s) && KeepsOpening(s, openings)
    ensures KeepsOpening(Step(s, e),
                         if e.Listen? then openings + [Opening(e.now, e.port, e.redirectUri)] else openings)
  {
    hide Answer;
  }

  /** In every run a flow has the port, the redirect address and the time it was opened with. */
  lemma {:induction false} FlowsKeepTheirOpening(events: seq<Event>)
    requires Run(events).Some?
    ensures KeepsOpening(Run(events).value, Openings(events))
  {
    if events != [] {
      FlowsKeepTheirOpening(events[..|events| - 1]);
      FlowsAreSound(events[..|events| - 1]);
      hide KeepsOpening, Sound, Step, Enabled;
      StepKeepsOpening(Run(events[..|events| - 1]).value, events[|events| - 1], Openings(events[..|events| - 1]));
    }
  }

  /** A flow that has no outcome yet. */
  ghost predicate Pending(events: seq<Event>, id: nat) {
    Run(events).Some? && id in Run(events).value.slots && Run(events).value.slots[id].promise.None?
  }

  /** A port can be opened if and only if every flow that was opened on it has its outcome. */
  lemma PortIsFreeExactly(events: seq<Event>, now: int, port: nat, redirectUri: string)
    requires Run(events).Some? && now >= Run(events).value.now
    ensures Enabled(Run(events).value, Listen(now, port, redirectUri))
            <==> forall i: nat | i < |Openings(events)| && Openings(events)[i].port == port :: !Pending(events, i + 1)
  {
    PortReopensOnceSettled(events, now, port, redirectUri);
    FlowsKeepTheirOpening(events);
    hide Run, Openings, Enabled;
    var s := Run(events).value;
    if forall i: nat | i < |Openings(events)| && Openings(events)[i].port == port :: !Pending(events, i + 1) {
      forall id | id in s.slots && s.slots[id].port == port ensures s.slots[id].promise.Some? {
        assert !Pending(events, (id - 1) + 1);
      }
    }
  }

  /** A flow times out ten minutes after it was opened, and an outcome is dropped five minutes after it came. */
  lemma TimersFireExactly(events: seq<Event>, id: nat, now: int)
    requires Run(events).Some? && id in Run(events).value.slots && now >= Run(events).value.now
    ensures 1 <= id <= |Openings(events)|
    ensures Enabled(Run(events).value, Timeout(now, id))
            <==> Pending(events, id) && now >= Openings(events)[id - 1].now + 10 * 60 * 1000
    ensures Enabled(Run(events).value, Reap(now, id))
            <==> && id in Run(events).value.live && Decided(events, id).Some?
                 && now >= Decided(events, id).value.0 + 5 * 60 * 1000
  {
    FlowsAreSound(events);
    FlowsKeepTheirOpening(events);
    FirstEventDecides(events, id);
    hide Run, Openings, Decided, Addresses;
    assert SlotSound(Run(events).value.slots[id], id in Run(events).value.live);
  }

  // ---------------------------------------------------------------- What settles it

  /** The outcome of a flow. */
  ghost predicate ComesTo(events: seq<Event>, id: nat, outcome: Outcome) {
    Run(events).Some? && id in Run(events).value.slots && Run(events).value.slots[id].promise == Some(outcome)
  }

  /** Anything else that happens to a pending flow, or to another, leaves it pending. */
  predicate Passes(e: Event, id: nat) {
    e.Listen? || e.Reap? || e.id != id || (e.Request? && !e.onPath)
  }

  lemma RunsOn(events: seq<Event>, e: Event)
    requires Run(events + [e]).Some?
    ensures Run(events).Some? && Enabled(Run(events).value, e)
    ensures Run(events + [e]).value == Step(Run(events).value, e)
  {
    assert (events + [e])[..|events + [e]| - 1] == events;
    hide Step, Enabled;
  }

  lemma OthersLeavePending(events: seq<Event>, e: Event, id: nat)
    requires Pending(events, id) && Run(events + [e]).Some? && Passes(e, id)
    ensures Pending(events + [e], id)
  {
    RunsOn(events, e);
    FlowsAreSound(events);
    hide Run, Answer;
  }

  /** What a redirect says when it brings no code: the error, the description, both, or nothing. */
  ghost predicate Explains(q: Query, message: string) {
    var error, description := Trim(q.error), Trim(q.description);
    && (error != "" && description != "" ==> message == error + ": " + description)
    && (error != "" && description == "" ==> message == error)
    && (error == "" && description != "" ==> message == description)
    && (error == "" && description == "" ==> message == "Authorization failed without an error message.")
  }

  lemma RedirectSettles(events: seq<Event>, e: Event) returns (outcome: Outcome)
    requires e.Request? && e.onPath && Pending(events, e.id) && Run(events + [e]).Some?
    ensures ComesTo(events + [e], e.id, outcome)
    ensures Trim(e.query.code) != "" ==>
              outcome == Granted(Trim(e.query.code), e.query.state, Run(events).value.slots[e.id].redirectUri)
    ensures Trim(e.query.code) == "" ==> outcome.Refused? && Explains(e.query, outcome.message)
  {
    RunsOn(events, e);
    FlowsAreSound(events);
    hide Run, Trim;
    outcome := Run(events + [e]).value.slots[e.id].promise.value;
  }

  lemma StaysSettled(events: seq<Event>, more: seq<Event>, id: nat, outcome: Outcome)
    requires ComesTo(events, id, outcome) && Run(events + more).Some?
    ensures ComesTo(events + more, id, outcome)
  {
    OutcomeIsFinal(events, more, id);
  }

  /** A flow whose first verdict is a redirect with a code is granted, for ever, that code with the state it came with
      and the flow's own redirect address; without a code it is refused, with what the redirect says. */
  lemma RedirectDecides(events: seq<Event>, e: Event, more: seq<Event>) returns (outcome: Outcome)
    requires e.Request? && e.onPath && Pending(events, e.id) && Run(events + [e] + more).Some?
    requires Run(events + [e]).Some?
    ensures ComesTo(events + [e] + more, e.id, outcome)
    ensures 1 <= e.id <= |Openings(events)|
    ensures Trim(e.query.code) != "" ==>
              outcome == Granted(Trim(e.query.code), e.query.state, Openings(events)[e.id - 1].redirectUri)
    ensures Trim(e.query.code) == "" ==> outcome.Refused? && Explains(e.query, outcome.message)
  {
    hide Run, Trim, Step, Explains;
    outcome := RedirectSettles(events, e);
    FlowsKeepTheirOpening(events);
    StaysSettled(events + [e], more, e.id, outcome);
  }

  /** Without a redirect it is refused by the first fault of its listener, by its timer, or by a cancel, each with its
      own words. */
  lemma OthersRefuse(events: seq<Event>, e: Event, more: seq<Event>)
    requires e.ServerFault? || e.Timeout? || e.Cancel?
    requires Pending(events, e.id) && Run(events + [e]).Some? && Run(events + [e] + more).Some?
    ensures ComesTo(events + [e] + more, e.id,
                    Refused(match e
                            case ServerFault(_, _, message) => message
                            case Timeout(_, _) => "Timed out waiting for the sign-in to complete."
                            case Cancel(_, _, reason) => "OAuth flow " + reason
                            case _ => ""))
  {
    RunsOn(events, e);
    FlowsAreSound(events);
    hide Run, Answer;
    StaysSettled(events + [e], more, e.id, Run(events + [e]).value.slots[e.id].promise.value);
  }
}
