/** Native crash signals: what is reported of a process death, and the per-process-type rate limit. */
module CrashLimiter {
  import opened Wrappers

  const KNOWN_REASONS: set<string> :=
    {"crashed", "oom", "killed", "launch-failed", "integrity-failure", "abnormal-exit", "memory-eviction"}

  /** A process death as the platform describes it; an exit code that is not an integer is None. */
  datatype Crash = Crash(processType: string, reason: string, exitCode: Option<int>, serviceName: string, route: string)

  /** What is sent. Absent members are empty, and `suppressed` is 0 when nothing was dropped. */
  datatype Event = Event(
    processType: string, reason: string, exitCode: int, serviceName: string, route: string, suppressed: nat)

  /** A clean exit is not a crash; a reason that is not known is reported as unknown. */
  function MapReason(reason: string): Option<string> {
    if reason == "clean-exit" then None
    else if reason in KNOWN_REASONS then Some(reason) else Some("unknown")
  }

  predicate IsLetter(c: char) {
    'a' <= c <= 'z' || 'A' <= c <= 'Z'
  }

  predicate IsServiceName(s: string) {
    && 1 <= |s| <= 64
    && IsLetter(s[0])
    && forall i | 1 <= i < |s| :: IsLetter(s[i]) || '0' <= s[i] <= '9' || s[i] == '_' || s[i] == '.'
  }

  function BuildCrashEvent(c: Crash): Option<Event> {
    match MapReason(c.reason)
    case None => None
    case Some(reason) =>
      Some(Event(c.processType, reason, if c.exitCode.Some? then c.exitCode.value else -1,
                 if IsServiceName(c.serviceName) then c.serviceName else "", c.route, 0))
  }

  datatype Limits = Limits(maxEvents: nat, windowMs: int)

  /** The times of events sent and not yet forgotten, and the events dropped since the last one sent. */
  datatype State = State(sentAt: map<string, seq<int>>, suppressed: map<string, nat>)

  const INITIAL := State(map[], map[])

  function SentAt(s: State, p: string): seq<int> {
    if p in s.sentAt then s.sentAt[p] else []
  }

  function Pending(s: State, p: string): nat {
    if p in s.suppressed then s.suppressed[p] else 0
  }

  /** The times less than the window before `t`. */
  function Within(times: seq<int>, t: int, windowMs: int): seq<int> {
    if times == [] then []
    else (if t - times[0] < windowMs then [times[0]] else []) + Within(times[1..], t, windowMs)
  }

  function Handled(l: Limits, s: State, c: Crash, t: int): (State, Option<Event>) {
    match BuildCrashEvent(c)
    case None => (s, None)
    case Some(event) =>
      var p := event.processType;
      var recent := Within(SentAt(s, p), t, l.windowMs);
      if |recent| >= l.maxEvents then
        (State(s.sentAt[p := recent], s.suppressed[p := Pending(s, p) + 1]), None)
      else
        (State(s.sentAt[p := recent + [t]], if Pending(s, p) > 0 then s.suppressed - {p} else s.suppressed),
         Some(event.(suppressed := Pending(s, p))))
  }

  class CrashSignalReporter {
    const limits: Limits
    var sentAt: map<string, seq<int>>
    var suppressed: map<string, nat>

    constructor (limits: Limits)
      ensures this.limits == limits && View() == INITIAL
    {
      this.limits := limits;
      sentAt, suppressed := map[], map[];
    }

    ghost function View(): State
      reads this
    {
      State(sentAt, suppressed)
    }

    method Report(c: Crash, t: int) returns (sent: Option<Event>)
      modifies this
      ensures (View(), sent) == Handled(limits, old(View()), c, t)
    {
      var built := BuildCrashEvent(c);
      if built.None? {
        return None;
      }
      var event := built.value;
      var p := event.processType;
      var recent := Within(if p in sentAt then sentAt[p] else [], t, limits.windowMs);
      if |recent| >= limits.maxEvents {
        sentAt := sentAt[p := recent];
        suppressed := suppressed[p := (if p in suppressed then suppressed[p] else 0) + 1];
        return None;
      }
      var dropped := if p in suppressed then suppressed[p] else 0;
      if dropped > 0 {
        event := event.(suppressed := dropped);
        suppressed := suppressed - {p};
      }
      sentAt := sentAt[p := recent + [t]];
      return Some(event);
    }
  }

  // ---------------------------------------------------------------- Every history of deaths

  datatype Death = Death(crash: Crash, at: int)

  ghost predicate InClockOrder(deaths: seq<Death>) {
    forall i, j | 0 <= i < j < |deaths| :: deaths[i].at <= deaths[j].at
  }

  function After(l: Limits, deaths: seq<Death>): State {
    if deaths == [] then INITIAL else
    var last := deaths[|deaths| - 1];
    Handled(l, After(l, deaths[..|deaths| - 1]), last.crash, last.at).0
  }

  /** What the reporter returned for the last death. */
  function SentLast(l: Limits, deaths: seq<Death>): Option<Event>
    requires deaths != []
  {
    var last := deaths[|deaths| - 1];
    Handled(l, After(l, deaths[..|deaths| - 1]), last.crash, last.at).1
  }

  predicate IsCrashOf(d: Death, p: string) {
    d.crash.processType == p && MapReason(d.crash.reason).Some?
  }

  /** The times of all the events ever sent for a process type. */
  function SentTimes(l: Limits, deaths: seq<Death>, p: string): seq<int> {
    if deaths == [] then [] else
    SentTimes(l, deaths[..|deaths| - 1], p)
    + if IsCrashOf(deaths[|deaths| - 1], p) && SentLast(l, deaths).Some? then [deaths[|deaths| - 1].at] else []
  }

  function Crashes(deaths: seq<Death>, p: string): nat {
    if deaths == [] then 0 else
    Crashes(deaths[..|deaths| - 1], p) + if IsCrashOf(deaths[|deaths| - 1], p) then 1 else 0
  }

  /** The drops reported so far, summed over the events sent. */
  function ReportedDrops(l: Limits, deaths: seq<Death>, p: string): nat {
    if deaths == [] then 0 else
    ReportedDrops(l, deaths[..|deaths| - 1], p)
    + if IsCrashOf(deaths[|deaths| - 1], p) && SentLast(l, deaths).Some?
      then SentLast(l, deaths).value.suppressed else 0
  }

  lemma OneCrashIsAccountedFor(l: Limits, s: State, c: Crash, t: int, p: string)
    ensures var (after, sent) := Handled(l, s, c, t);
            var mine := c.processType == p && MapReason(c.reason).Some?;
            && Pending(after, p) + (if mine && sent.Some? then 1 + sent.value.suppressed else 0)
               == Pending(s, p) + (if mine then 1 else 0)
            && (sent.Some? ==> MapReason(c.reason).Some?)
  {
    hide MapReason, IsServiceName, Within;
  }

  /** No crash is lost count of: each was sent, has been reported as dropped, or is waiting to be. */
  lemma {:induction false} CrashesAreConserved(l: Limits, deaths: seq<Death>, p: string)
    ensures Crashes(deaths, p)
            == |SentTimes(l, deaths, p)| + ReportedDrops(l, deaths, p) + Pending(After(l, deaths), p)
  {
    hide Handled, MapReason;
    if deaths != [] {
      var before, last := deaths[..|deaths| - 1], deaths[|deaths| - 1];
      CrashesAreConserved(l, before, p);
      OneCrashIsAccountedFor(l, After(l, before), last.crash, last.at, p);
    }
  }

  // ---------------------------------------------------------------- The rate

  ghost predicate Sorted(times: seq<int>) {
    forall i, j | 0 <= i < j < |times| :: times[i] <= times[j]
  }

  /** Any `maxEvents + 1` sends in a row span at least the window. */
  ghost predicate Spaced(l: Limits, times: seq<int>) {
    forall i | 0 <= i < |times| - l.maxEvents :: times[i + l.maxEvents] - times[i] >= l.windowMs
  }

  /** The times kept are the latest of all the times, and those forgotten are out of the window for good. */
  ghost predicate KeepsLatest(l: Limits, all: seq<int>, kept: seq<int>, now: int) {
    && |kept| <= |all|
    && kept == all[|all| - |kept|..]
    && forall i | 0 <= i < |all| - |kept| :: now - all[i] >= l.windowMs
  }

  lemma {:induction false} AllStay(times: seq<int>, t: int, windowMs: int)
    requires forall i | 0 <= i < |times| :: t - times[i] < windowMs
    ensures Within(times, t, windowMs) == times
  {
    if times != [] {
      AllStay(times[1..], t, windowMs);
      assert [times[0]] + times[1..] == times;
    }
  }

  lemma {:induction false} WithinIsSuffix(times: seq<int>, t: int, windowMs: int) returns (n: nat)
    requires Sorted(times)
    ensures n <= |times| && Within(times, t, windowMs) == times[n..]
    ensures forall i | 0 <= i < n :: t - times[i] >= windowMs
  {
    if times == [] || t - times[0] < windowMs {
      assert forall i | 0 < i < |times| :: times[0] <= times[i];
      AllStay(times, t, windowMs);
      n := 0;
    } else {
      var rest := times[1..];
      assert Sorted(rest);
      var m := WithinIsSuffix(rest, t, windowMs);
      hide Within, Sorted;
      n := m + 1;
      assert rest[m..] == times[n..];
      forall i | 0 <= i < n ensures t - times[i] >= windowMs {
        if i > 0 {
          assert times[i] == rest[i - 1];
        }
      }
      assert Within(times, t, windowMs) == Within(rest, t, windowMs) by {
        LateHeadGoes(times, t, windowMs);
      }
    }
  }

  lemma LateHeadGoes(times: seq<int>, t: int, windowMs: int)
    requires times != [] && t - times[0] >= windowMs
    ensures Within(times, t, windowMs) == Within(times[1..], t, windowMs)
  {
    assert [] + Within(times[1..], t, windowMs) == Within(times[1..], t, windowMs);
  }

  lemma SuffixIsSorted(all: seq<int>, n: nat)
    requires Sorted(all) && n <= |all|
    ensures Sorted(all[n..])
  {
  }

  /** Forgetting the first `n` of the times kept, all out of the window at `t`, still keeps the latest. */
  lemma ForgettingKeepsLatest(l: Limits, all: seq<int>, kept: seq<int>, now: int, t: int, n: nat)
    requires KeepsLatest(l, all, kept, now) && now <= t && n <= |kept|
    requires forall i | 0 <= i < n :: t - kept[i] >= l.windowMs
    ensures KeepsLatest(l, all, kept[n..], t)
  {
    var gone := |all| - |kept|;
    assert kept[n..] == all[gone + n..];
    forall i | 0 <= i < gone + n ensures t - all[i] >= l.windowMs {
      if i >= gone {
        assert all[i] == kept[i - gone];
      }
    }
  }

  lemma FilterKeepsLatest(l: Limits, all: seq<int>, kept: seq<int>, now: int, t: int)
    requires Sorted(all) && KeepsLatest(l, all, kept, now) && now <= t
    ensures KeepsLatest(l, all, Within(kept, t, l.windowMs), t)
  {
    SuffixIsSorted(all, |all| - |kept|);
    hide Sorted, Within;
    var n := WithinIsSuffix(kept, t, l.windowMs);
    ForgettingKeepsLatest(l, all, kept, now, t, n);
  }

  lemma SendStaysSpaced(l: Limits, all: seq<int>, recent: seq<int>, t: int)
    requires Spaced(l, all) && KeepsLatest(l, all, recent, t) && |recent| < l.maxEvents
    ensures Spaced(l, all + [t]) && KeepsLatest(l, all + [t], recent + [t], t)
  {
    assert recent + [t] == (all + [t])[|all| - |recent|..];
  }

  /** All the times sent, and those kept, at a moment `now`. */
  ghost predicate Rated(l: Limits, all: seq<int>, kept: seq<int>, now: int) {
    Sorted(all) && (forall i | 0 <= i < |all| :: all[i] <= now) && Spaced(l, all) && KeepsLatest(l, all, kept, now)
  }

  lemma HandledTimes(l: Limits, s: State, c: Crash, t: int, p: string)
    ensures var (after, sent) := Handled(l, s, c, t);
            var recent := Within(SentAt(s, p), t, l.windowMs);
            if c.processType != p || MapReason(c.reason).None? then SentAt(after, p) == SentAt(s, p)
            else if |recent| >= l.maxEvents then sent.None? && SentAt(after, p) == recent
            else sent.Some? && SentAt(after, p) == recent + [t]
  {
    hide MapReason, IsServiceName, Within;
  }

  /** What the last death adds to the times of one process type. */
  lemma LastDeath(l: Limits, deaths: seq<Death>, p: string)
    requires deaths != []
    ensures var before, last := deaths[..|deaths| - 1], deaths[|deaths| - 1];
            var recent := Within(SentAt(After(l, before), p), last.at, l.windowMs);
            var kept, all := SentAt(After(l, deaths), p), SentTimes(l, deaths, p);
            if !IsCrashOf(last, p) then kept == SentAt(After(l, before), p) && all == SentTimes(l, before, p)
            else if |recent| >= l.maxEvents then kept == recent && all == SentTimes(l, before, p)
            else kept == recent + [last.at] && all == SentTimes(l, before, p) + [last.at]
  {
    var before, last := deaths[..|deaths| - 1], deaths[|deaths| - 1];
    HandledTimes(l, After(l, before), last.crash, last.at, p);
    hide Handled, MapReason, Within;
    assert SentTimes(l, before, p) + [] == SentTimes(l, before, p);
  }

  lemma LaterIsSorted(all: seq<int>, t: int)
    requires Sorted(all) && forall i | 0 <= i < |all| :: all[i] <= t
    ensures Sorted(all + [t]) && forall i | 0 <= i < |all + [t]| :: (all + [t])[i] <= t
  {
  }

  lemma LaterKeepsLatest(l: Limits, all: seq<int>, kept: seq<int>, now: int, t: int)
    requires KeepsLatest(l, all, kept, now) && now <= t
    ensures KeepsLatest(l, all, kept, t)
  {
  }

  /** A death at `t` that is not of this type, is dropped, or is sent. */
  lemma RateStep(l: Limits, all: seq<int>, kept: seq<int>, now: int, t: int)
    requires Rated(l, all, kept, now) && now <= t
    ensures var recent := Within(kept, t, l.windowMs);
            && Rated(l, all, kept, t)
            && Rated(l, all, recent, t)
            && (|recent| < l.maxEvents ==> Rated(l, all + [t], recent + [t], t))
  {
    hide Sorted, Spaced, KeepsLatest, Within;
    var recent := Within(kept, t, l.windowMs);
    LaterKeepsLatest(l, all, kept, now, t);
    FilterKeepsLatest(l, all, kept, now, t);
    LaterIsSorted(all, t);
    if |recent| < l.maxEvents {
      SendStaysSpaced(l, all, recent, t);
    }
  }

  lemma NothingRated(l: Limits, now: int)
    ensures Rated(l, [], [], now)
  {
  }

  lemma {:induction false} RateIsKept(l: Limits, deaths: seq<Death>, p: string)
    requires InClockOrder(deaths)
    ensures if deaths == [] then SentTimes(l, deaths, p) == [] && SentAt(After(l, deaths), p) == []
            else Rated(l, SentTimes(l, deaths, p), SentAt(After(l, deaths), p), deaths[|deaths| - 1].at)
  {
    if deaths != [] {
      var before, last := deaths[..|deaths| - 1], deaths[|deaths| - 1];
      RateIsKept(l, before, p);
      LastDeath(l, deaths, p);
      hide SentTimes, After, SentAt, IsCrashOf, Within, Rated;
      var now := if before == [] then last.at else before[|before| - 1].at;
      if before == [] {
        NothingRated(l, now);
      }
      RateStep(l, SentTimes(l, before, p), SentAt(After(l, before), p), now, last.at);
    }
  }

  function CountIn(times: seq<int>, from: int, until: int): nat {
    if times == [] then 0
    else (if from <= times[0] < until then 1 else 0) + CountIn(times[1..], from, until)
  }

  lemma {:induction false} FewInSortedWindow(times: seq<int>, from: int, until: int, n: nat)
    requires Sorted(times) && (forall i | 0 <= i < |times| :: times[i] >= from)
    requires n < |times| ==> times[n] >= until
    ensures CountIn(times, from, until) <= n
  {
    if times != [] {
      if n == 0 {
        assert Sorted(times[1..]) && (|times| > 1 ==> times[1..][0] >= times[0]);
        FewInSortedWindow(times[1..], from, until, 0);
      } else {
        FewInSortedWindow(times[1..], from, until, n - 1);
      }
    }
  }

  lemma {:induction false} SpacedMeansFew(l: Limits, times: seq<int>, from: int)
    requires Sorted(times) && Spaced(l, times)
    ensures CountIn(times, from, from + l.windowMs) <= l.maxEvents
  {
    if times != [] {
      if times[0] < from {
        assert Spaced(l, times[1..]) by {
          forall i | 0 <= i < |times[1..]| - l.maxEvents
            ensures times[1..][i + l.maxEvents] - times[1..][i] >= l.windowMs
          {
            assert times[i + 1 + l.maxEvents] - times[i + 1] >= l.windowMs;
          }
        }
        SpacedMeansFew(l, times[1..], from);
      } else {
        FewInSortedWindow(times, from, from + l.windowMs, l.maxEvents);
      }
    }
  }

  /** Whatever dies and when, a half-open window as long as the limiter's holds at most `maxEvents` events
      sent for one process type, although the reporter has forgotten all but the latest times. */
  lemma RateIsLimited(l: Limits, deaths: seq<Death>, p: string, from: int)
    requires InClockOrder(deaths)
    ensures CountIn(SentTimes(l, deaths, p), from, from + l.windowMs) <= l.maxEvents
  {
    RateIsKept(l, deaths, p);
    SpacedMeansFew(l, SentTimes(l, deaths, p), from);
  }

  lemma DropMeansFull(l: Limits, deaths: seq<Death>, p: string)
    requires deaths != [] && IsCrashOf(deaths[|deaths| - 1], p) && SentLast(l, deaths).None?
    ensures var last := deaths[|deaths| - 1];
            |Within(SentAt(After(l, deaths[..|deaths| - 1]), p), last.at, l.windowMs)| >= l.maxEvents
  {
    var last := deaths[|deaths| - 1];
    HandledTimes(l, After(l, deaths[..|deaths| - 1]), last.crash, last.at, p);
    hide Handled, MapReason, Within;
  }

  /** The kept times within the window are the latest of all, so a full window is a full run of sends. */
  lemma FullWindow(l: Limits, all: seq<int>, recent: seq<int>, t: int)
    requires KeepsLatest(l, all, recent, t) && |recent| >= l.maxEvents
    requires forall i | 0 <= i < |recent| :: t - recent[i] < l.windowMs
    ensures l.maxEvents <= |all| && forall i | |all| - l.maxEvents <= i < |all| :: t - all[i] < l.windowMs
  {
    forall i | |all| - l.maxEvents <= i < |all| ensures t - all[i] < l.windowMs {
      assert all[i] == recent[i - (|all| - |recent|)];
    }
  }

  /** And it drops nothing it need not: a crash is dropped only when `maxEvents` events of its type were sent
      less than the window before it. */
  lemma DropIsNeeded(l: Limits, deaths: seq<Death>, p: string)
    requires deaths != [] && InClockOrder(deaths) && IsCrashOf(deaths[|deaths| - 1], p)
    requires SentLast(l, deaths).None?
    ensures var t := deaths[|deaths| - 1].at;
            var all := SentTimes(l, deaths[..|deaths| - 1], p);
            l.maxEvents <= |all|
            && forall i | |all| - l.maxEvents <= i < |all| :: t - all[i] < l.windowMs
  {
    DropMeansFull(l, deaths, p);
    var before, t := deaths[..|deaths| - 1], deaths[|deaths| - 1].at;
    RateIsKept(l, before, p);
    hide SentTimes, After, SentAt, IsCrashOf, Within, Spaced, KeepsLatest, SentLast;
    var all, kept := SentTimes(l, before, p), SentAt(After(l, before), p);
    if before == [] {
      NothingRated(l, t);
    }
    RateStep(l, all, kept, if before == [] then t else before[|before| - 1].at, t);
    WithinIsWithin(kept, t, l.windowMs);
    FullWindow(l, all, Within(kept, t, l.windowMs), t);
  }

  lemma {:induction false} WithinIsWithin(times: seq<int>, t: int, windowMs: int)
    ensures forall i | 0 <= i < |Within(times, t, windowMs)| :: t - Within(times, t, windowMs)[i] < windowMs
  {
    if times != [] {
      WithinIsWithin(times[1..], t, windowMs);
    }
  }
}
