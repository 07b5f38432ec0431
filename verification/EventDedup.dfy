/** Suppressing repeated product events: a swept map that must answer as the whole history would. */
module EventDedup {
  import opened Text

  /** Milliseconds. */
  const DEDUP_WINDOW := 5000
  const SWEEP_ABOVE := 1000

  /** Dedup key -> when it was last emitted. */
  type Recent = map<string, int>

  function Swept(recent: Recent, now: int): Recent {
    map k | k in recent && now - recent[k] < DEDUP_WINDOW :: recent[k]
  }

  function Held(recent: Recent, now: int): Recent {
    if |recent| > SWEEP_ABOVE then Swept(recent, now) else recent
  }

  predicate IsDuplicate(recent: Recent, key: string, now: int) {
    key in Held(recent, now) && now - Held(recent, now)[key] < DEDUP_WINDOW
  }

  function Noted(recent: Recent, key: string, now: int): Recent {
    if IsDuplicate(recent, key, now) then Held(recent, now) else Held(recent, now)[key := now]
  }

  class Client {
    var recent: Recent

    constructor ()
      ensures recent == map[]
    {
      recent := map[];
    }

    method Duplicate(key: string, now: int) returns (duplicate: bool)
      modifies this
      ensures duplicate <==> IsDuplicate(old(recent), key, now)
      ensures recent == Noted(old(recent), key, now)
    {
      if |recent| > SWEEP_ABOVE {
        ghost var before := recent;
        var left := recent.Keys;
        while left != {}
          invariant left <= before.Keys
          invariant recent == map k | k in before && (k in left || now - before[k] < DEDUP_WINDOW) :: before[k]
          decreases |left|
        {
          var k :| k in left;
          if k in recent && now - recent[k] >= DEDUP_WINDOW {
            recent := recent - {k};
          }
          left := left - {k};
        }
      }
      if key in recent && now - recent[key] < DEDUP_WINDOW {
        return true;
      }
      recent := recent[key := now];
      return false;
    }
  }

  // ---------------------------------------------------------------- Against the whole history

  datatype Call = Call(key: string, now: int)

  ghost predicate InClockOrder(calls: seq<Call>) {
    forall i, j | 0 <= i < j < |calls| :: calls[i].now <= calls[j].now
  }

  /** The map after these calls. */
  function After(calls: seq<Call>): Recent {
    if calls == [] then map[] else
    var last := calls[|calls| - 1];
    Noted(After(calls[..|calls| - 1]), last.key, last.now)
  }

  /** What the client answers to the call at `i`. */
  predicate Suppresses(calls: seq<Call>, i: nat)
    requires i < |calls|
  {
    IsDuplicate(After(calls[..i]), calls[i].key, calls[i].now)
  }

  /** The answer with nothing forgotten: some earlier call with this key was emitted less than the window ago. */
  ghost predicate IsRepeat(calls: seq<Call>, i: nat)
    requires i < |calls|
    decreases i
  {
    exists j | 0 <= j < i :: !IsRepeat(calls, j) && Repeats(calls, j, i)
  }

  ghost predicate Repeats(calls: seq<Call>, j: nat, i: nat)
    requires j < |calls| && i < |calls|
  {
    calls[j].key == calls[i].key && calls[i].now - calls[j].now < DEDUP_WINDOW
  }

  ghost predicate EmittedBefore(calls: seq<Call>, n: nat, key: string, at: int)
    requires n <= |calls|
  {
    exists j :: 0 <= j < n && !IsRepeat(calls, j) && calls[j] == Call(key, at)
  }

  /** Every remembered time is an emission. */
  ghost predicate OnlyEmissions(calls: seq<Call>, n: nat, recent: Recent)
    requires n <= |calls|
  {
    forall k | k in recent :: EmittedBefore(calls, n, k, recent[k])
  }

  /** Every emission is remembered, superseded by a later one, or too old at `now` to matter. */
  ghost predicate AllEmissions(calls: seq<Call>, n: nat, recent: Recent, now: int)
    requires n <= |calls|
  {
    forall j | 0 <= j < n && !IsRepeat(calls, j) ::
      || (calls[j].key in recent && recent[calls[j].key] >= calls[j].now)
      || now - calls[j].now >= DEDUP_WINDOW
  }

  ghost predicate Remembers(calls: seq<Call>, n: nat)
    requires n <= |calls|
  {
    && OnlyEmissions(calls, n, After(calls[..n]))
    && (n > 0 ==> AllEmissions(calls, n, After(calls[..n]), calls[n - 1].now))
  }

  lemma AnswerAgrees(calls: seq<Call>, n: nat)
    requires n < |calls| && InClockOrder(calls) && Remembers(calls, n)
    ensures Suppresses(calls, n) <==> IsRepeat(calls, n)
  {
    hide After;
    var recent, call := After(calls[..n]), calls[n];
    if Suppresses(calls, n) {
      assert EmittedBefore(calls, n, call.key, recent[call.key]);
      var j :| 0 <= j < n && !IsRepeat(calls, j) && calls[j] == Call(call.key, recent[call.key]);
      assert Repeats(calls, j, n);
    }
    if IsRepeat(calls, n) {
      var j :| 0 <= j < n && !IsRepeat(calls, j) && Repeats(calls, j, n);
      assert calls[n - 1].now <= call.now;
    }
  }

  /** What one call does to the map: it forgets only what is out of the window, and adds only itself. */
  lemma NotedKeeps(recent: Recent, key: string, now: int, k: string)
    ensures k in Noted(recent, key, now) ==>
              (k in recent && Noted(recent, key, now)[k] == recent[k])
              || (k == key && Noted(recent, key, now)[k] == now && !IsDuplicate(recent, key, now))
    ensures k in recent && recent[k] <= now ==>
              (k in Noted(recent, key, now) && Noted(recent, key, now)[k] >= recent[k])
              || now - recent[k] >= DEDUP_WINDOW
    ensures key in Noted(recent, key, now)
    ensures !IsDuplicate(recent, key, now) ==> Noted(recent, key, now)[key] == now
  {
  }

  lemma OnlyEmissionsNext(calls: seq<Call>, n: nat, recent: Recent)
    requires n < |calls| && OnlyEmissions(calls, n, recent)
    requires IsDuplicate(recent, calls[n].key, calls[n].now) <==> IsRepeat(calls, n)
    ensures OnlyEmissions(calls, n + 1, Noted(recent, calls[n].key, calls[n].now))
  {
    hide IsRepeat, Noted, IsDuplicate;
    var call := calls[n];
    forall k | k in Noted(recent, call.key, call.now)
      ensures EmittedBefore(calls, n + 1, k, Noted(recent, call.key, call.now)[k])
    {
      NotedKeeps(recent, call.key, call.now, k);
      if k in recent && Noted(recent, call.key, call.now)[k] == recent[k] {
        assert EmittedBefore(calls, n, k, recent[k]);
      } else {
        assert calls[n] == Call(k, call.now);
      }
    }
  }

  lemma AllEmissionsNext(calls: seq<Call>, n: nat, recent: Recent)
    requires n < |calls| && InClockOrder(calls)
    requires OnlyEmissions(calls, n, recent) && (n > 0 ==> AllEmissions(calls, n, recent, calls[n - 1].now))
    requires IsDuplicate(recent, calls[n].key, calls[n].now) <==> IsRepeat(calls, n)
    ensures AllEmissions(calls, n + 1, Noted(recent, calls[n].key, calls[n].now), calls[n].now)
  {
    hide IsRepeat, Noted, IsDuplicate;
    var call := calls[n];
    var after := Noted(recent, call.key, call.now);
    forall j | 0 <= j < n + 1 && !IsRepeat(calls, j)
      ensures (calls[j].key in after && after[calls[j].key] >= calls[j].now)
              || call.now - calls[j].now >= DEDUP_WINDOW
    {
      NotedKeeps(recent, call.key, call.now, calls[j].key);
      if j < n && calls[j].key in recent {
        assert EmittedBefore(calls, n, calls[j].key, recent[calls[j].key]);
      }
    }
  }

  lemma AfterNext(calls: seq<Call>, n: nat)
    requires n < |calls|
    ensures After(calls[..n + 1]) == Noted(After(calls[..n]), calls[n].key, calls[n].now)
  {
    hide Noted;
    assert calls[..n + 1][..n] == calls[..n];
  }

  lemma NextIsRemembered(calls: seq<Call>, n: nat)
    requires n < |calls| && InClockOrder(calls) && Remembers(calls, n)
    ensures Remembers(calls, n + 1)
  {
    AnswerAgrees(calls, n);
    AfterNext(calls, n);
    hide After, Noted, IsRepeat, IsDuplicate, OnlyEmissions, AllEmissions;
    OnlyEmissionsNext(calls, n, After(calls[..n]));
    AllEmissionsNext(calls, n, After(calls[..n]));
  }

  lemma {:induction false} HistoryIsRemembered(calls: seq<Call>, n: nat)
    requires n <= |calls| && InClockOrder(calls)
    ensures Remembers(calls, n)
  {
    hide IsRepeat, IsDuplicate, Noted;
    if n > 0 {
      HistoryIsRemembered(calls, n - 1);
      NextIsRemembered(calls, n - 1);
    }
  }

  /** For calls serialised in clock order, the swept map answers exactly as the full history does. */
  lemma SweptMapAnswersAsHistory(calls: seq<Call>, i: nat)
    requires i < |calls| && InClockOrder(calls)
    ensures Suppresses(calls, i) <==> IsRepeat(calls, i)
  {
    HistoryIsRemembered(calls, i);
    AnswerAgrees(calls, i);
  }

  /** Two emissions of one key are at least the window apart. */
  lemma EmissionsAreSpaced(calls: seq<Call>, i: nat, j: nat)
    requires i < j < |calls| && InClockOrder(calls) && calls[i].key == calls[j].key
    requires !Suppresses(calls, i) && !Suppresses(calls, j)
    ensures calls[j].now - calls[i].now >= 5000
  {
    SweptMapAnswersAsHistory(calls, i);
    SweptMapAnswersAsHistory(calls, j);
    assert !Repeats(calls, i, j);
  }

  /** Every suppressed event has an emission of its own key less than the window before it. */
  lemma SuppressionHasACause(calls: seq<Call>, i: nat) returns (j: nat)
    requires i < |calls| && InClockOrder(calls) && Suppresses(calls, i)
    ensures j < i && calls[j].key == calls[i].key && !Suppresses(calls, j)
    ensures calls[i].now - calls[j].now < 5000
  {
    SweptMapAnswersAsHistory(calls, i);
    j :| 0 <= j < i && !IsRepeat(calls, j) && Repeats(calls, j, i);
    SweptMapAnswersAsHistory(calls, j);
  }

  // ---------------------------------------------------------------- The key

  const NUL := '\0'

  function DedupKey(name: string, userId: string, identity: string): string {
    name + [NUL] + userId + [NUL] + identity
  }

  /** Events share a key exactly when name, user and identity agree, for names and users without a NUL. */
  lemma KeyIsInjective(n1: string, u1: string, i1: string, n2: string, u2: string, i2: string)
    requires NUL !in n1 && NUL !in n2 && NUL !in u1 && NUL !in u2
    ensures DedupKey(n1, u1, i1) == DedupKey(n2, u2, i2) <==> (n1 == n2 && u1 == u2 && i1 == i2)
  {
    if DedupKey(n1, u1, i1) == DedupKey(n2, u2, i2) {
      hide Split;
      var k := DedupKey(n1, u1, i1);
      assert k == n1 + [NUL] + (u1 + [NUL] + i1) && k == n2 + [NUL] + (u2 + [NUL] + i2);
      SplitHead(n1, u1 + [NUL] + i1, NUL);
      SplitHead(n2, u2 + [NUL] + i2, NUL);
      SplitHead(u1, i1, NUL);
      SplitHead(u2, i2, NUL);
      assert n1 == Split(k, NUL)[0] == n2;
      assert u1 == Split(k, NUL)[1] == u2;
      assert i1 == k[|n1| + |u1| + 2..] == i2;
    }
  }
}
