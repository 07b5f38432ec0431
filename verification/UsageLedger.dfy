/** The LLM usage ledger against account deletion: usage writes and purges as concurrent transactions
    serialised by a per-user advisory lock, with the fence a purge leaves behind and its expiry. */
module UsageLedger {
  import opened Wrappers

  const DAY := 24 * 60 * 60
  /** How long a fence row is kept. */
  const FENCE_RETENTION := 30 * DAY
  /** The longest a workflow, and so a model call it started, can still write usage. */
  const WORKFLOW_LIFETIME := 14 * DAY

  /** One provider request, made by a workflow that started at `born`. */
  datatype Call = Call(user: string, born: int)

  /** (id, attempt), the primary key of the ledger. */
  type RowKey = (string, nat)

  /** A write takes the lock shared, then looks for a fence, then inserts and commits. */
  datatype WriterPhase = Waiting | Locked | Unfenced | Finished(recorded: bool)

  datatype Writer = Writer(key: RowKey, call: Call, phase: WriterPhase)

  /** A purge takes the lock exclusive, writes the fence, then runs its two deletes. A delete sees the
      rows committed when it runs; nothing it does is visible before the commit. */
  datatype PurgePhase =
    | Queued | Held | Fenced
    | RowsDeleted(rows: set<RowKey>)
    | RollupDeleted(rows: set<RowKey>, rollup: bool)
    | Ended

  datatype Purge = Purge(user: string, startedAt: int, phase: PurgePhase)

  /** The committed tables, the open transactions, and for the statements below the start and commit times
      of each user's latest committed purge. */
  datatype State = State(
    now: int,
    usage: map<RowKey, Call>,
    daily: map<string, nat>,
    fences: map<string, int>,
    writers: map<nat, Writer>,
    purges: map<nat, Purge>,
    began: map<string, int>,
    gone: map<string, int>)

  const INITIAL := State(0, map[], map[], map[], map[], map[], map[], map[])

  predicate WriterHolds(w: Writer, user: string) {
    w.call.user == user && (w.phase.Locked? || w.phase.Unfenced?)
  }

  predicate PurgeHolds(p: Purge, user: string) {
    p.user == user && !p.phase.Queued? && !p.phase.Ended?
  }

  datatype Event =
    | Tick(to: int)
    | StartWrite(w: nat, key: RowKey, call: Call)
    | LockWrite(w: nat)
    | CheckFence(w: nat)
    | CommitWrite(w: nat)
    | AbortWrite(w: nat)
    | StartPurge(p: nat, user: string)
    | LockPurge(p: nat)
    | WriteFence(p: nat)
    | DeleteRows(p: nat)
    | DeleteRollup(p: nat)
    | CommitPurge(p: nat)
    | AbortPurge(p: nat)
    | PruneRows(aged: set<RowKey>)
    | PruneFences

  predicate Enabled(s: State, e: Event) {
    match e
    case Tick(to) => to >= s.now
    case StartWrite(w, _, call) => w !in s.writers && call.born <= s.now
    case LockWrite(w) =>
      && w in s.writers && s.writers[w].phase.Waiting?
      && forall p | p in s.purges :: !PurgeHolds(s.purges[p], s.writers[w].call.user)
    case CheckFence(w) => w in s.writers && s.writers[w].phase.Locked?
    case CommitWrite(w) => w in s.writers && s.writers[w].phase.Unfenced?
    case AbortWrite(w) => w in s.writers && !s.writers[w].phase.Finished?
    case StartPurge(p, _) => p !in s.purges
    case LockPurge(p) =>
      && p in s.purges && s.purges[p].phase.Queued?
      && (forall w | w in s.writers :: !WriterHolds(s.writers[w], s.purges[p].user))
      && (forall q | q in s.purges :: !PurgeHolds(s.purges[q], s.purges[p].user))
    case WriteFence(p) => p in s.purges && s.purges[p].phase.Held?
    case DeleteRows(p) => p in s.purges && s.purges[p].phase.Fenced?
    case DeleteRollup(p) => p in s.purges && s.purges[p].phase.RowsDeleted?
    case CommitPurge(p) => p in s.purges && s.purges[p].phase.RollupDeleted?
    case AbortPurge(p) => p in s.purges && !s.purges[p].phase.Ended?
    case PruneRows(_) => true
    case PruneFences => true
  }

  function RowsOf(s: State, user: string): set<RowKey> {
    set k | k in s.usage && s.usage[k].user == user
  }

  function WithWriter(s: State, w: nat, phase: WriterPhase): State
    requires w in s.writers
  {
    s.(writers := s.writers[w := s.writers[w].(phase := phase)])
  }

  function WithPurge(s: State, p: nat, phase: PurgePhase): State
    requires p in s.purges
  {
    s.(purges := s.purges[p := s.purges[p].(phase := phase)])
  }

  /** The same attempt delivered twice is recorded once, and only a new row adds to the rollup. */
  function Record(s: State, w: nat): State
    requires w in s.writers
  {
    var Writer(key, call, _) := s.writers[w];
    var isNew := key !in s.usage;
    var t := WithWriter(s, w, Finished(isNew));
    if isNew then
      t.(usage := s.usage[key := call],
         daily := s.daily[call.user := 1 + if call.user in s.daily then s.daily[call.user] else 0])
    else t
  }

  function FinishPurge(s: State, p: nat): State
    requires p in s.purges && s.purges[p].phase.RollupDeleted?
  {
    var Purge(user, startedAt, RollupDeleted(rows, rollup)) := s.purges[p];
    WithPurge(s, p, Ended).(
      usage := map k | k in s.usage && !(k in rows && s.usage[k].user == user) :: s.usage[k],
      daily := if rollup then s.daily - {user} else s.daily,
      fences := s.fences[user := startedAt],
      began := s.began[user := startedAt],
      gone := s.gone[user := s.now])
  }

  function Apply(s: State, e: Event): State
    requires Enabled(s, e)
  {
    match e
    case Tick(to) => s.(now := to)
    case StartWrite(w, key, call) => s.(writers := s.writers[w := Writer(key, call, Waiting)])
    case LockWrite(w) => WithWriter(s, w, Locked)
    case CheckFence(w) =>
      WithWriter(s, w, if s.writers[w].call.user in s.fences then Finished(false) else Unfenced)
    case CommitWrite(w) => Record(s, w)
    case AbortWrite(w) => WithWriter(s, w, Finished(false))
    case StartPurge(p, user) => s.(purges := s.purges[p := Purge(user, s.now, Queued)])
    case LockPurge(p) => WithPurge(s, p, Held)
    case WriteFence(p) => WithPurge(s, p, Fenced)
    case DeleteRows(p) => WithPurge(s, p, RowsDeleted(RowsOf(s, s.purges[p].user)))
    case DeleteRollup(p) => WithPurge(s, p, RollupDeleted(s.purges[p].phase.rows, s.purges[p].user in s.daily))
    case CommitPurge(p) => FinishPurge(s, p)
    case AbortPurge(p) => WithPurge(s, p, Ended)
    case PruneRows(aged) => s.(usage := map k | k in s.usage && k !in aged :: s.usage[k])
    case PruneFences => s.(fences := map u | u in s.fences && s.fences[u] >= s.now - FENCE_RETENTION :: s.fences[u])
  }

  /** The state after a sequence of events, or None when one of them cannot happen. */
  function Run(events: seq<Event>): Option<State> {
    if events == [] then Some(INITIAL) else
    match Run(events[..|events| - 1])
    case None => None
    case Some(s) => if Enabled(s, events[|events| - 1]) then Some(Apply(s, events[|events| - 1])) else None
  }

  // ---------------------------------------------------------------- The lock and the fence

  ghost predicate NoWriterBesidePurge(s: State) {
    forall p, w | p in s.purges && w in s.writers && PurgeHolds(s.purges[p], s.purges[p].user) ::
      !WriterHolds(s.writers[w], s.purges[p].user)
  }

  ghost predicate OnePurgeAtATime(s: State) {
    forall p, q | p in s.purges && q in s.purges && p != q && PurgeHolds(s.purges[p], s.purges[p].user) ::
      !PurgeHolds(s.purges[q], s.purges[p].user)
  }

  ghost predicate LockIsExclusive(s: State) {
    NoWriterBesidePurge(s) && OnePurgeAtATime(s)
  }

  /** What a holding purge has deleted is still everything there is. */
  ghost predicate DeletesStayComplete(s: State) {
    forall p | p in s.purges ::
      match s.purges[p].phase
      case RowsDeleted(rows) => RowsOf(s, s.purges[p].user) <= rows
      case RollupDeleted(rows, rollup) =>
        RowsOf(s, s.purges[p].user) <= rows && (s.purges[p].user in s.daily ==> rollup)
      case _ => true
  }

  ghost predicate FenceHolds(s: State) {
    && (forall k | k in s.usage :: s.usage[k].user !in s.fences)
    && (forall u | u in s.fences :: u !in s.daily)
    && (forall w | w in s.writers && s.writers[w].phase.Unfenced? :: s.writers[w].call.user !in s.fences)
  }

  predicate IsWriterEvent(e: Event) {
    e.StartWrite? || e.LockWrite? || e.CheckFence? || e.CommitWrite? || e.AbortWrite?
  }

  lemma WritesKeepOut(s: State, e: Event)
    requires IsWriterEvent(e) && Enabled(s, e) && NoWriterBesidePurge(s)
    ensures NoWriterBesidePurge(Apply(s, e))
  {
  }

  lemma OthersKeepWritersOut(s: State, e: Event)
    requires !IsWriterEvent(e) && Enabled(s, e) && NoWriterBesidePurge(s)
    ensures NoWriterBesidePurge(Apply(s, e))
  {
  }

  lemma WritesKeepPurgesApart(s: State, e: Event)
    requires IsWriterEvent(e) && Enabled(s, e) && OnePurgeAtATime(s)
    ensures OnePurgeAtATime(Apply(s, e))
  {
  }

  lemma OthersKeepPurgesApart(s: State, e: Event)
    requires !IsWriterEvent(e) && Enabled(s, e) && OnePurgeAtATime(s)
    ensures OnePurgeAtATime(Apply(s, e))
  {
  }

  lemma UncommittedWritesChangeNoTable(s: State, e: Event)
    requires IsWriterEvent(e) && !e.CommitWrite? && Enabled(s, e)
    ensures Apply(s, e) == s.(writers := Apply(s, e).writers)
  {
  }

  /** A write adds only rows of a user no purge holds. */
  lemma RecordingKeepsDeletesComplete(s: State, w: nat)
    requires Enabled(s, CommitWrite(w)) && LockIsExclusive(s) && DeletesStayComplete(s)
    ensures DeletesStayComplete(Apply(s, CommitWrite(w)))
  {
    var after, user := Apply(s, CommitWrite(w)), s.writers[w].call.user;
    assert after.purges == s.purges;
    assert WriterHolds(s.writers[w], user);
    forall p | p in s.purges && PurgeHolds(s.purges[p], s.purges[p].user)
      ensures RowsOf(after, s.purges[p].user) == RowsOf(s, s.purges[p].user)
      ensures s.purges[p].user in after.daily ==> s.purges[p].user in s.daily
    {
      assert s.purges[p].user != user;
    }
    hide RowsOf, LockIsExclusive;
  }

  lemma WritesKeepDeletesComplete(s: State, e: Event)
    requires IsWriterEvent(e) && Enabled(s, e) && LockIsExclusive(s) && DeletesStayComplete(s)
    ensures DeletesStayComplete(Apply(s, e))
  {
    if e.CommitWrite? {
      RecordingKeepsDeletesComplete(s, e.w);
    } else {
      UncommittedWritesChangeNoTable(s, e);
      hide Apply, Enabled, LockIsExclusive;
    }
  }

  lemma CommitKeepsDeletesComplete(s: State, p: nat)
    requires Enabled(s, CommitPurge(p)) && LockIsExclusive(s) && DeletesStayComplete(s)
    ensures DeletesStayComplete(Apply(s, CommitPurge(p)))
  {
  }

  lemma OthersKeepDeletesComplete(s: State, e: Event)
    requires !IsWriterEvent(e) && !e.CommitPurge? && Enabled(s, e) && LockIsExclusive(s) && DeletesStayComplete(s)
    ensures DeletesStayComplete(Apply(s, e))
  {
  }

  lemma RecordingKeepsFence(s: State, w: nat)
    requires Enabled(s, CommitWrite(w)) && FenceHolds(s)
    ensures FenceHolds(Apply(s, CommitWrite(w)))
  {
  }

  lemma WritesKeepFence(s: State, e: Event)
    requires IsWriterEvent(e) && !e.CommitWrite? && Enabled(s, e) && FenceHolds(s)
    ensures FenceHolds(Apply(s, e))
  {
  }

  lemma OthersKeepFence(s: State, e: Event)
    requires !IsWriterEvent(e) && Enabled(s, e) && LockIsExclusive(s) && DeletesStayComplete(s) && FenceHolds(s)
    ensures FenceHolds(Apply(s, e))
  {
  }

  ghost predicate Invariant(s: State) {
    LockIsExclusive(s) && DeletesStayComplete(s) && FenceHolds(s)
  }

  lemma StepKeepsInvariant(s: State, e: Event)
    requires Enabled(s, e) && Invariant(s)
    ensures Invariant(Apply(s, e))
  {
    hide Apply;
    if IsWriterEvent(e) {
      WritesKeepOut(s, e);
      WritesKeepPurgesApart(s, e);
      WritesKeepDeletesComplete(s, e);
      if e.CommitWrite? {
        RecordingKeepsFence(s, e.w);
      } else {
        WritesKeepFence(s, e);
      }
    } else {
      OthersKeepWritersOut(s, e);
      OthersKeepPurgesApart(s, e);
      OthersKeepFence(s, e);
      if e.CommitPurge? {
        CommitKeepsDeletesComplete(s, e.p);
      } else {
        OthersKeepDeletesComplete(s, e);
      }
    }
  }

  lemma {:induction false} RunKeepsInvariant(events: seq<Event>)
    requires Run(events).Some?
    ensures Invariant(Run(events).value)
  {
    hide Apply, Enabled;
    if events != [] {
      RunKeepsInvariant(events[..|events| - 1]);
      StepKeepsInvariant(Run(events[..|events| - 1]).value, events[|events| - 1]);
    }
  }

  /** In every interleaving, a user whose fence stands has no usage row and no rollup. */
  lemma FencedUsersHaveNoUsage(events: seq<Event>, user: string)
    requires Run(events).Some? && user in Run(events).value.fences
    ensures RowsOf(Run(events).value, user) == {} && user !in Run(events).value.daily
  {
    RunKeepsInvariant(events);
  }

  // ---------------------------------------------------------------- After the fence expires

  /** A workflow writes within its lifetime, and a purge commits soon enough after it starts that its fence,
      which is dated at the start, outlives every workflow running at the commit. */
  predicate Timely(s: State, e: Event)
    requires Enabled(s, e)
  {
    && (e.CheckFence? ==> s.now <= s.writers[e.w].call.born + WORKFLOW_LIFETIME)
    && (e.CommitPurge? ==> s.now - s.purges[e.p].startedAt <= FENCE_RETENTION - WORKFLOW_LIFETIME)
  }

  predicate TimelyRun(events: seq<Event>) {
    events == []
    || (&& TimelyRun(events[..|events| - 1])
        && Run(events).Some?
        && Timely(Run(events[..|events| - 1]).value, events[|events| - 1]))
  }

  /** The fence of the latest purge is up until its retention has passed. */
  ghost predicate FencesAge(s: State) {
    && (forall u | u in s.fences :: u in s.gone)
    && (forall u | u in s.gone ::
          && u in s.began
          && s.gone[u] - s.began[u] <= FENCE_RETENTION - WORKFLOW_LIFETIME
          && if u in s.fences then s.fences[u] == s.began[u] else s.now > s.began[u] + FENCE_RETENTION)
  }

  /** Whatever is recorded, or about to be, was started by a workflow younger than the user's purge. */
  ghost predicate OnlyLaterUsage(s: State) {
    && (forall k | k in s.usage && s.usage[k].user in s.gone :: s.usage[k].born > s.gone[s.usage[k].user])
    && (forall w | w in s.writers && s.writers[w].phase.Unfenced? && s.writers[w].call.user in s.gone ::
          s.writers[w].call.born > s.gone[s.writers[w].call.user])
  }

  lemma RecordAddsOwnRow(s: State, w: nat)
    requires w in s.writers
    ensures var after, writer := Record(s, w), s.writers[w];
            && after.gone == s.gone && after.began == s.began && after.fences == s.fences && after.now == s.now
            && after.usage == (if writer.key in s.usage then s.usage else s.usage[writer.key := writer.call])
            && after.writers.Keys == s.writers.Keys && after.writers[w].phase.Finished?
            && forall v | v in s.writers && v != w :: after.writers[v] == s.writers[v]
  {
  }

  lemma OthersLeaveFences(s: State, e: Event)
    requires Enabled(s, e) && !e.CommitPurge? && !e.PruneFences?
    ensures var after := Apply(s, e);
            after.fences == s.fences && after.began == s.began && after.gone == s.gone && after.now >= s.now
  {
    if e.CommitWrite? {
      RecordAddsOwnRow(s, e.w);
      hide Record;
    } else if IsWriterEvent(e) {
      UncommittedWritesChangeNoTable(s, e);
      hide Apply;
    }
  }

  lemma FencesKeepAging(s: State, e: Event)
    requires Enabled(s, e) && Timely(s, e) && FencesAge(s)
    ensures FencesAge(Apply(s, e))
  {
    if !e.CommitPurge? && !e.PruneFences? {
      OthersLeaveFences(s, e);
      hide Apply, Enabled;
    }
  }

  lemma RecordingStaysLater(s: State, w: nat)
    requires Enabled(s, CommitWrite(w)) && OnlyLaterUsage(s)
    ensures OnlyLaterUsage(Apply(s, CommitWrite(w)))
  {
    RecordAddsOwnRow(s, w);
    hide Record;
    assert s.writers[w].phase.Unfenced? && Apply(s, CommitWrite(w)) == Record(s, w);
    hide Apply, Enabled;
  }

  lemma WritesStayLater(s: State, e: Event)
    requires IsWriterEvent(e) && !e.CommitWrite? && Enabled(s, e) && Timely(s, e) && FencesAge(s) && OnlyLaterUsage(s)
    ensures OnlyLaterUsage(Apply(s, e))
  {
  }

  lemma OthersStayLater(s: State, e: Event)
    requires !IsWriterEvent(e) && Enabled(s, e) && Invariant(s) && OnlyLaterUsage(s)
    ensures OnlyLaterUsage(Apply(s, e))
  {
  }

  lemma {:induction false} TimelyRunStaysLater(events: seq<Event>)
    requires TimelyRun(events)
    ensures Run(events).Some?
    ensures FencesAge(Run(events).value) && OnlyLaterUsage(Run(events).value)
  {
    hide Apply, Enabled;
    if events != [] {
      var before, e := events[..|events| - 1], events[|events| - 1];
      TimelyRunStaysLater(before);
      var s := Run(before).value;
      RunKeepsInvariant(before);
      FencesKeepAging(s, e);
      if e.CommitWrite? {
        RecordingStaysLater(s, e.w);
      } else if IsWriterEvent(e) {
        WritesStayLater(s, e);
      } else {
        OthersStayLater(s, e);
      }
    }
  }

  /** Once a purge has committed, no usage of a workflow that was running by then is recorded, then or ever
      again, even after the fence is pruned. */
  lemma PurgedUsageNeverReturns(events: seq<Event>, user: string, k: RowKey)
    requires TimelyRun(events) && user in Run(events).value.gone && k in RowsOf(Run(events).value, user)
    ensures Run(events).value.usage[k].born > Run(events).value.gone[user]
  {
    TimelyRunStaysLater(events);
  }

  // ---------------------------------------------------------------- A purge that is too slow

  lemma Extend(events: seq<Event>, e: Event)
    requires Run(events).Some? && Enabled(Run(events).value, e)
    ensures Run(events + [e]) == Some(Apply(Run(events).value, e))
  {
    assert (events + [e])[..|events + [e]| - 1] == events;
  }

  function PurgeOnly(user: string, now: int, phase: PurgePhase): State {
    INITIAL.(now := now, purges := map[0 := Purge(user, 0, phase)])
  }

  function Deletes(user: string): seq<Event> {
    [StartPurge(0, user), LockPurge(0), WriteFence(0), DeleteRows(0), DeleteRollup(0)]
  }

  lemma FenceWritten(user: string)
    ensures Run(Deletes(user)[..3]) == Some(PurgeOnly(user, 0, Fenced))
  {
    var es := Deletes(user);
    Extend([], es[0]);
    assert [] + [es[0]] == es[..1] && Run(es[..1]).value == PurgeOnly(user, 0, Queued);
    Extend(es[..1], es[1]);
    assert es[..1] + [es[1]] == es[..2] && Run(es[..2]).value == PurgeOnly(user, 0, Held);
    Extend(es[..2], es[2]);
    assert es[..2] + [es[2]] == es[..3] && Run(es[..3]).value == PurgeOnly(user, 0, Fenced);
  }

  lemma DeletesRun(user: string)
    ensures Run(Deletes(user)) == Some(PurgeOnly(user, 0, RollupDeleted({}, false)))
  {
    var es := Deletes(user);
    FenceWritten(user);
    assert RowsOf(PurgeOnly(user, 0, Fenced), user) == {};
    Extend(es[..3], es[3]);
    assert es[..3] + [es[3]] == es[..4] && Run(es[..4]).value == PurgeOnly(user, 0, RowsDeleted({}));
    Extend(es[..4], es[4]);
    assert es[..4] + [es[4]] == es;
    assert Run(es).value == PurgeOnly(user, 0, RollupDeleted({}, false));
  }

  /** A purge that starts at 0 and commits at `d`. */
  function SlowPurge(user: string, d: int): seq<Event> {
    Deletes(user) + [Tick(d)] + [CommitPurge(0)]
  }

  lemma SlowPurgeRuns(user: string, d: int)
    requires d >= 0
    ensures Run(SlowPurge(user, d)).Some?
    ensures var s := Run(SlowPurge(user, d)).value;
            s.now == d && s.usage == map[] && s.fences == map[user := 0] && s.writers == map[]
            && s.purges == map[0 := Purge(user, 0, Ended)] && s.gone == map[user := d]
  {
    DeletesRun(user);
    Extend(Deletes(user), Tick(d));
    Extend(Deletes(user) + [Tick(d)], CommitPurge(0));
  }

  /** A write of a workflow that starts as the purge commits, checked at the end of its lifetime. */
  function LateWrite(user: string, key: RowKey, d: int): seq<Event> {
    [StartWrite(0, key, Call(user, d)), Tick(d + WORKFLOW_LIFETIME), PruneFences]
  }

  lemma FenceExpires(user: string, key: RowKey, d: int)
    requires d > FENCE_RETENTION - WORKFLOW_LIFETIME
    ensures Run(SlowPurge(user, d) + LateWrite(user, key, d)).Some?
    ensures var s := Run(SlowPurge(user, d) + LateWrite(user, key, d)).value;
            s.now == d + WORKFLOW_LIFETIME && s.usage == map[] && s.fences == map[] && s.gone == map[user := d]
            && s.writers == map[0 := Writer(key, Call(user, d), Waiting)]
            && s.purges == map[0 := Purge(user, 0, Ended)]
  {
    SlowPurgeRuns(user, d);
    var p, es := SlowPurge(user, d), LateWrite(user, key, d);
    Extend(p, es[0]);
    Extend(p + [es[0]], es[1]);
    Extend(p + [es[0]] + [es[1]], es[2]);
    assert p + [es[0]] + [es[1]] + [es[2]] == p + es;
  }

  /** The bound on the purge cannot be dropped: whenever a purge takes longer than the 16 days by which the fence
      outlives a workflow, a write within its workflow's lifetime is recorded for a workflow running at the commit. */
  lemma SlowPurgeLeaks(user: string, key: RowKey, d: int)
    requires d > 16 * 24 * 60 * 60
    ensures var run := Run(SlowPurge(user, d) + LateWrite(user, key, d)
                           + [LockWrite(0)] + [CheckFence(0)] + [CommitWrite(0)]);
            run.Some? && run.value.now == d + 14 * 24 * 60 * 60
            && user in run.value.gone && run.value.gone[user] == d
            && key in run.value.usage && run.value.usage[key] == Call(user, d)
  {
    FenceExpires(user, key, d);
    var p := SlowPurge(user, d) + LateWrite(user, key, d);
    Extend(p, LockWrite(0));
    Extend(p + [LockWrite(0)], CheckFence(0));
    Extend(p + [LockWrite(0)] + [CheckFence(0)], CommitWrite(0));
  }
}
