/** What is reported of each process death, told from the deaths alone: whether anything is sent, what it says, and how
    many earlier deaths it stands for. */
module CrashReports {
  import opened Wrappers
  import opened CrashLimiter

  /** A death that is no clean exit. */
  predicate IsFault(d: Death, processType: string) {
    d.crash.processType == processType && d.crash.reason != "clean-exit"
  }

  lemma FaultIsCrash(d: Death, processType: string)
    ensures IsCrashOf(d, processType) <==> IsFault(d, processType)
  {
  }

  /** The crashes of a process type since the last one that was sent. */
  function Unreported(l: Limits, deaths: seq<Death>, processType: string): nat {
    if deaths == [] then 0 else
    var before, last := deaths[..|deaths| - 1], deaths[|deaths| - 1];
    if !IsFault(last, processType) then Unreported(l, before, processType)
    else if SentLast(l, deaths).Some? then 0
    else Unreported(l, before, processType) + 1
  }

  lemma HandledPending(l: Limits, s: State, c: Crash, t: int, p: string)
    ensures var (after, sent) := Handled(l, s, c, t);
            && Pending(after, p)
               == (if c.processType != p || MapReason(c.reason).None? then Pending(s, p)
                   else if sent.Some? then 0 else Pending(s, p) + 1)
            && (sent.Some? ==> sent.value.suppressed == Pending(s, c.processType))
  {
    hide MapReason, IsServiceName, Within;
  }

  lemma {:induction false} PendingIsUnreported(l: Limits, deaths: seq<Death>, p: string)
    ensures Pending(After(l, deaths), p) == Unreported(l, deaths, p)
  {
    if deaths != [] {
      var before, last := deaths[..|deaths| - 1], deaths[|deaths| - 1];
      PendingIsUnreported(l, before, p);
      HandledPending(l, After(l, before), last.crash, last.at, p);
      FaultIsCrash(last, p);
      hide Handled, MapReason;
    }
  }

  predicate IsNamed(reason: string) {
    || reason == "crashed" || reason == "oom" || reason == "killed" || reason == "launch-failed"
    || reason == "integrity-failure" || reason == "abnormal-exit" || reason == "memory-eviction"
  }

  /** A letter and at most 63 letters, digits, underscores and dots. */
  predicate IsSafeName(name: string) {
    && name != "" && |name| < 65 && ('A' <= name[0] <= 'Z' || 'a' <= name[0] <= 'z')
    && forall i | 1 <= i < |name| ::
         'A' <= name[i] <= 'Z' || 'a' <= name[i] <= 'z' || '0' <= name[i] <= '9' || name[i] == '_' || name[i] == '.'
  }

  lemma HandledSays(l: Limits, s: State, c: Crash, t: int)
    requires Handled(l, s, c, t).1.Some?
    ensures var sent := Handled(l, s, c, t).1.value;
            && sent.processType == c.processType && sent.route == c.route
            && sent.reason == (if IsNamed(c.reason) then c.reason else "unknown")
            && (c.exitCode.Some? ==> sent.exitCode == c.exitCode.value)
            && (c.exitCode.None? ==> sent.exitCode == -1)
            && sent.serviceName == (if IsSafeName(c.serviceName) then c.serviceName else "")
            && c.reason != "clean-exit"
  {
    hide Within;
  }

  /** What is sent describes the death it is sent for, keeps to the known reasons and to safe names, and counts the
      crashes of its process type that nothing was sent for since the last. */
  lemma SentDescribesTheDeath(l: Limits, deaths: seq<Death>)
    requires deaths != [] && SentLast(l, deaths).Some?
    ensures var c, sent := deaths[|deaths| - 1].crash, SentLast(l, deaths).value;
            && sent.processType == c.processType && sent.route == c.route
            && sent.reason == (if IsNamed(c.reason) then c.reason else "unknown")
            && (c.exitCode.Some? ==> sent.exitCode == c.exitCode.value)
            && (c.exitCode.None? ==> sent.exitCode == -1)
            && sent.serviceName == (if IsSafeName(c.serviceName) then c.serviceName else "")
            && sent.suppressed == Unreported(l, deaths[..|deaths| - 1], c.processType)
            && c.reason != "clean-exit"
  {
    var before, last := deaths[..|deaths| - 1], deaths[|deaths| - 1];
    HandledSays(l, After(l, before), last.crash, last.at);
    HandledPending(l, After(l, before), last.crash, last.at, last.crash.processType);
    PendingIsUnreported(l, before, last.crash.processType);
    hide Handled, IsNamed, IsSafeName;
  }

  // ---------------------------------------------------------------- When it is sent

  lemma {:induction false} CountSplits(a: seq<int>, b: seq<int>, from: int, until: int)
    ensures CountIn(a + b, from, until) == CountIn(a, from, until) + CountIn(b, from, until)
  {
    if a == [] {
      assert a + b == b;
    } else {
      assert (a + b)[0] == a[0] && (a + b)[1..] == a[1..] + b;
      CountSplits(a[1..], b, from, until);
    }
  }

  lemma {:induction false} CountNone(times: seq<int>, from: int, until: int)
    requires forall i | 0 <= i < |times| :: times[i] < from
    ensures CountIn(times, from, until) == 0
  {
    if times != [] {
      CountNone(times[1..], from, until);
    }
  }

  lemma {:induction false} CountAll(times: seq<int>, from: int, until: int)
    requires forall i | 0 <= i < |times| :: from <= times[i] < until
    ensures CountIn(times, from, until) == |times|
  {
    if times != [] {
      CountAll(times[1..], from, until);
    }
  }

  /** The times kept and not yet forgotten are those of the window. */
  lemma KeptAreInWindow(l: Limits, all: seq<int>, recent: seq<int>, t: int)
    requires Rated(l, all, recent, t) && forall i | 0 <= i < |recent| :: t - recent[i] < l.windowMs
    ensures CountIn(all, t - l.windowMs + 1, t + 1) == |recent|
  {
    var n := |all| - |recent|;
    assert all == all[..n] + recent;
    CountSplits(all[..n], recent, t - l.windowMs + 1, t + 1);
    CountNone(all[..n], t - l.windowMs + 1, t + 1);
    forall i | 0 <= i < |recent| ensures recent[i] <= t {
      assert recent[i] == all[n + i];
    }
    CountAll(recent, t - l.windowMs + 1, t + 1);
  }

  lemma CleanIsNotSent(l: Limits, s: State, c: Crash, t: int)
    requires c.reason == "clean-exit"
    ensures Handled(l, s, c, t).1.None?
  {
  }

  lemma SentWhenThereIsRoom(l: Limits, deaths: seq<Death>)
    requires deaths != []
    ensures var before, last := deaths[..|deaths| - 1], deaths[|deaths| - 1];
            SentLast(l, deaths).Some?
            <==> && last.crash.reason != "clean-exit"
                 && |Within(SentAt(After(l, before), last.crash.processType), last.at, l.windowMs)| < l.maxEvents
  {
    hide After, SentAt, Handled, Within, MapReason;
    var before, last := deaths[..|deaths| - 1], deaths[|deaths| - 1];
    HandledTimes(l, After(l, before), last.crash, last.at, last.crash.processType);
    FaultIsCrash(last, last.crash.processType);
    if last.crash.reason == "clean-exit" {
      CleanIsNotSent(l, After(l, before), last.crash, last.at);
    }
  }

  /** What is kept within the window is all that was ever sent within it. */
  lemma KeptIsAllInWindow(l: Limits, before: seq<Death>, p: string, t: int)
    requires InClockOrder(before) && (before != [] ==> before[|before| - 1].at <= t)
    ensures |Within(SentAt(After(l, before), p), t, l.windowMs)|
            == CountIn(SentTimes(l, before, p), t - l.windowMs + 1, t + 1)
  {
    hide SentTimes, After, SentAt, Within, Rated;
    RateIsKept(l, before, p);
    var all, kept := SentTimes(l, before, p), SentAt(After(l, before), p);
    if before == [] {
      NothingRated(l, t);
    }
    RateStep(l, all, kept, if before == [] then t else before[|before| - 1].at, t);
    WithinIsWithin(kept, t, l.windowMs);
    KeptAreInWindow(l, all, Within(kept, t, l.windowMs), t);
  }

  /** A death is reported if and only if it is no clean exit and fewer than the maximum of events were sent for its
      process type less than the window before it. */
  lemma SentExactly(l: Limits, deaths: seq<Death>)
    requires deaths != [] && InClockOrder(deaths)
    ensures var before, last := deaths[..|deaths| - 1], deaths[|deaths| - 1];
            SentLast(l, deaths).Some?
            <==> && last.crash.reason != "clean-exit"
                 && CountIn(SentTimes(l, before, last.crash.processType), last.at - l.windowMs + 1, last.at + 1)
                    < l.maxEvents
  {
    hide SentTimes, After, SentAt, Within, SentLast, CountIn;
    SentWhenThereIsRoom(l, deaths);
    KeptIsAllInWindow(l, deaths[..|deaths| - 1], deaths[|deaths| - 1].crash.processType, deaths[|deaths| - 1].at);
  }
}
