/** The usage ledger as one book: what the tables hold after any interleaving of locked writes and two-statement
    deletes is what the same commits give when each happens at once. */
module LedgerHistory {
  import opened Wrappers
  import opened UsageLedger

  // ---------------------------------------------------------------- The book

  datatype Book = Book(usage: map<RowKey, Call>, daily: map<string, nat>, fences: map<string, int>)

  function Clock(events: seq<Event>): int {
    if events == [] then 0 else
    match events[|events| - 1] case Tick(to) => to case _ => Clock(events[..|events| - 1])
  }

  /** What a write was started with. */
  function Asked(events: seq<Event>, w: nat): Option<(RowKey, Call)> {
    if events == [] then None else
    match events[|events| - 1]
    case StartWrite(v, key, call) => if v == w then Some((key, call)) else Asked(events[..|events| - 1], w)
    case _ => Asked(events[..|events| - 1], w)
  }

  /** Whom a purge was started for, and when. */
  function Sought(events: seq<Event>, p: nat): Option<(string, int)> {
    if events == [] then None else
    match events[|events| - 1]
    case StartPurge(q, user) =>
      if q == p then Some((user, Clock(events[..|events| - 1]))) else Sought(events[..|events| - 1], p)
    case _ => Sought(events[..|events| - 1], p)
  }

  function Calls(b: Book, user: string): nat {
    if user in b.daily then b.daily[user] else 0
  }

  /** A write commits at once: a row whose key is new, and one call more for its user. */
  function Noted(b: Book, key: RowKey, call: Call): Book {
    if key in b.usage then b
    else b.(usage := b.usage[key := call], daily := b.daily[call.user := Calls(b, call.user) + 1])
  }

  /** A purge commits at once: all that is the user's goes, and the fence stands. */
  function Wiped(b: Book, user: string, at: int): Book {
    Book(map k | k in b.usage && b.usage[k].user != user :: b.usage[k], b.daily - {user}, b.fences[user := at])
  }

  /** Only commits and prunes leave a trace. */
  function BookOf(events: seq<Event>): Book {
    if events == [] then Book(map[], map[], map[]) else
    var before := events[..|events| - 1];
    var b := BookOf(before);
    match events[|events| - 1]
    case CommitWrite(w) =>
      (match Asked(before, w) case Some((key, call)) => Noted(b, key, call) case None => b)
    case CommitPurge(p) =>
      (match Sought(before, p) case Some((user, at)) => Wiped(b, user, at) case None => b)
    case PruneRows(aged) => b.(usage := map k | k in b.usage && k !in aged :: b.usage[k])
    case PruneFences =>
      b.(fences := map u | u in b.fences && Clock(before) - b.fences[u] <= 30 * 24 * 60 * 60 :: b.fences[u])
    case _ => b
  }

  // ---------------------------------------------------------------- The tables agree with it

  ghost predicate KnowsRequests(s: State, events: seq<Event>) {
    && s.now == Clock(events)
    && (forall w | w in s.writers :: Asked(events, w) == Some((s.writers[w].key, s.writers[w].call)))
    && (forall p | p in s.purges :: Sought(events, p) == Some((s.purges[p].user, s.purges[p].startedAt)))
  }

  lemma BookGrows(events: seq<Event>, e: Event)
    ensures (events + [e])[..|events + [e]| - 1] == events && (events + [e])[|events + [e]| - 1] == e
  {
  }

  lemma RequestsGrow(before: seq<Event>, e: Event, i: nat)
    ensures Asked(before + [e], i) == if e.StartWrite? && e.w == i then Some((e.key, e.call)) else Asked(before, i)
    ensures Sought(before + [e], i)
            == if e.StartPurge? && e.p == i then Some((e.user, Clock(before))) else Sought(before, i)
    ensures Clock(before + [e]) == if e.Tick? then e.to else Clock(before)
  {
    BookGrows(before, e);
  }

  lemma WritesLeavePurges(s: State, e: Event)
    requires IsWriterEvent(e) && Enabled(s, e)
    ensures Apply(s, e).purges == s.purges && Apply(s, e).now == s.now
  {
    if !e.CommitWrite? {
      UncommittedWritesChangeNoTable(s, e);
      hide Apply, Enabled;
    }
  }

  lemma OthersLeaveWriters(s: State, e: Event)
    requires !IsWriterEvent(e) && Enabled(s, e)
    ensures Apply(s, e).writers == s.writers && Apply(s, e).now == if e.Tick? then e.to else s.now
  {
  }

  lemma RecordKeepsRequests(s: State, w: nat, v: nat)
    requires w in s.writers && v in Record(s, w).writers
    ensures v in s.writers
    ensures Record(s, w).writers[v].key == s.writers[v].key && Record(s, w).writers[v].call == s.writers[v].call
  {
  }

  lemma WriterKeepsRequest(s: State, e: Event, w: nat)
    requires IsWriterEvent(e) && Enabled(s, e) && w in Apply(s, e).writers
    ensures var after := Apply(s, e).writers[w];
            if e.StartWrite? && e.w == w then after.key == e.key && after.call == e.call
            else w in s.writers && after.key == s.writers[w].key && after.call == s.writers[w].call
  {
    if e.CommitWrite? {
      hide Record;
      RecordKeepsRequests(s, e.w, w);
    }
  }

  lemma PurgeKeepsRequest(s: State, e: Event, p: nat)
    requires !IsWriterEvent(e) && Enabled(s, e) && p in Apply(s, e).purges
    ensures var after := Apply(s, e).purges[p];
            if e.StartPurge? && e.p == p then after.user == e.user && after.startedAt == s.now
            else p in s.purges && after.user == s.purges[p].user && after.startedAt == s.purges[p].startedAt
  {
  }

  lemma StepKnowsRequests(s: State, before: seq<Event>, e: Event)
    requires Enabled(s, e) && KnowsRequests(s, before)
    ensures KnowsRequests(Apply(s, e), before + [e])
  {
    hide Asked, Sought, Clock, Apply, Enabled;
    var after := Apply(s, e);
    RequestsGrow(before, e, 0);
    if IsWriterEvent(e) {
      WritesLeavePurges(s, e);
    } else {
      OthersLeaveWriters(s, e);
    }
    forall w | w in after.writers
      ensures Asked(before + [e], w) == Some((after.writers[w].key, after.writers[w].call))
    {
      RequestsGrow(before, e, w);
      if IsWriterEvent(e) {
        WriterKeepsRequest(s, e, w);
      }
    }
    forall p | p in after.purges
      ensures Sought(before + [e], p) == Some((after.purges[p].user, after.purges[p].startedAt))
    {
      RequestsGrow(before, e, p);
      if !IsWriterEvent(e) {
        PurgeKeepsRequest(s, e, p);
      }
    }
  }

  function Tables(s: State): Book {
    Book(s.usage, s.daily, s.fences)
  }

  lemma WriteIsAtOnce(s: State, w: nat)
    requires Enabled(s, CommitWrite(w))
    ensures Tables(Apply(s, CommitWrite(w))) == Noted(Tables(s), s.writers[w].key, s.writers[w].call)
  {
  }

  /** The rows a purge deletes when it commits are all there are by then, although it chose them before. */
  lemma PurgeIsAtOnce(s: State, p: nat)
    requires Enabled(s, CommitPurge(p)) && DeletesStayComplete(s)
    ensures Tables(Apply(s, CommitPurge(p))) == Wiped(Tables(s), s.purges[p].user, s.purges[p].startedAt)
  {
    var Purge(user, startedAt, RollupDeleted(rows, rollup)) := s.purges[p];
    forall k | k in s.usage && s.usage[k].user == user ensures k in rows {
      assert k in RowsOf(s, user);
    }
    assert Apply(s, CommitPurge(p)).daily == s.daily - {user};
  }

  lemma OthersChangeNoTable(s: State, e: Event)
    requires Enabled(s, e) && !e.CommitWrite? && !e.CommitPurge? && !e.PruneRows? && !e.PruneFences?
    ensures Tables(Apply(s, e)) == Tables(s)
  {
  }

  lemma StepKeepsBook(s: State, before: seq<Event>, e: Event)
    requires Enabled(s, e) && KnowsRequests(s, before) && DeletesStayComplete(s) && Tables(s) == BookOf(before)
    ensures Tables(Apply(s, e)) == BookOf(before + [e])
  {
    BookGrows(before, e);
    hide Asked, Sought, Clock, RowsOf;
    match e
    case CommitWrite(w) => WriteIsAtOnce(s, w); hide Apply;
    case CommitPurge(p) => PurgeIsAtOnce(s, p); hide Apply;
    case PruneRows(_) =>
    case PruneFences =>
    case _ => OthersChangeNoTable(s, e); hide Apply;
  }

  /** In every interleaving of transactions that take their locks, look at the fence and delete in two statements, the
      rows, the rollup and the fences are those of the book, to which each commit happens at once. */
  lemma {:induction false} TablesAreTheBook(events: seq<Event>)
    requires Run(events).Some?
    ensures KnowsRequests(Run(events).value, events)
    ensures Tables(Run(events).value) == BookOf(events)
  {
    if events != [] {
      var before, e := events[..|events| - 1], events[|events| - 1];
      TablesAreTheBook(before);
      RunKeepsInvariant(before);
      hide Apply, Enabled, KnowsRequests, DeletesStayComplete;
      StepKnowsRequests(Run(before).value, before, e);
      StepKeepsBook(Run(before).value, before, e);
      assert before + [e] == events;
    }
  }

  // ---------------------------------------------------------------- Rows and rollup

  function Rows(b: Book, user: string): set<RowKey> {
    set k | k in b.usage && b.usage[k].user == user
  }

  ghost predicate Counted(b: Book, user: string, exact: bool) {
    && |Rows(b, user)| <= Calls(b, user)
    && (exact ==> |Rows(b, user)| == Calls(b, user))
    && (user in b.daily <==> Calls(b, user) > 0)
  }

  lemma NotedCounts(b: Book, key: RowKey, call: Call, user: string, exact: bool)
    requires Counted(b, user, exact)
    ensures Counted(Noted(b, key, call), user, exact)
  {
    assert Rows(Noted(b, key, call), user)
           == if key !in b.usage && call.user == user then Rows(b, user) + {key} else Rows(b, user);
  }

  lemma WipedCounts(b: Book, gone: string, at: int, user: string, exact: bool)
    requires Counted(b, user, exact)
    ensures Counted(Wiped(b, gone, at), user, exact)
  {
    assert Rows(Wiped(b, gone, at), user) == if user == gone then {} else Rows(b, user);
  }

  lemma PrunedCounts(b: Book, aged: set<RowKey>, user: string, exact: bool)
    requires Counted(b, user, exact)
    ensures Counted(b.(usage := map k | k in b.usage && k !in aged :: b.usage[k]), user, false)
  {
    var after := b.(usage := map k | k in b.usage && k !in aged :: b.usage[k]);
    assert Rows(b, user) == Rows(after, user) + (Rows(b, user) - Rows(after, user));
  }

  lemma FencesDoNotCount(b: Book, fences: map<string, int>, user: string, exact: bool)
    requires Counted(b, user, exact)
    ensures Counted(b.(fences := fences), user, exact)
  {
    assert Rows(b.(fences := fences), user) == Rows(b, user);
  }

  predicate NothingPruned(events: seq<Event>) {
    forall e | e in events :: !e.PruneRows?
  }

  lemma {:induction false} BookCounts(events: seq<Event>, user: string)
    ensures Counted(BookOf(events), user, NothingPruned(events))
  {
    hide Asked, Sought, Clock, Counted, Noted, Wiped;
    if events == [] {
      NothingCounted(user);
    } else {
      var before, e := events[..|events| - 1], events[|events| - 1];
      var b, exact := BookOf(before), NothingPruned(before);
      BookCounts(before, user);
      assert e in events && forall d | d in before :: d in events;
      assert forall d | d in events :: d in before || d == e;
      match e
      case CommitWrite(w) =>
        if Asked(before, w).Some? {
          NotedCounts(b, Asked(before, w).value.0, Asked(before, w).value.1, user, exact);
        }
      case CommitPurge(p) =>
        if Sought(before, p).Some? {
          WipedCounts(b, Sought(before, p).value.0, Sought(before, p).value.1, user, exact);
        }
      case PruneRows(aged) => PrunedCounts(b, aged, user, exact);
      case PruneFences => FencesDoNotCount(b, BookOf(events).fences, user, exact);
      case _ =>
    }
  }

  lemma NothingCounted(user: string)
    ensures Counted(Book(map[], map[], map[]), user, true)
  {
  }

  /** The rollup never counts fewer calls than there are rows, and exactly as many while nothing is pruned. */
  lemma RollupCountsRows(events: seq<Event>, user: string)
    requires Run(events).Some?
    ensures var s := Run(events).value;
            var calls := if user in s.daily then s.daily[user] else 0;
            && |RowsOf(s, user)| <= calls
            && (NothingPruned(events) ==> |RowsOf(s, user)| == calls)
            && (user in s.daily <==> calls > 0)
  {
    TablesAreTheBook(events);
    BookCounts(events, user);
    assert RowsOf(Run(events).value, user) == Rows(BookOf(events), user);
  }

  /** The commits of a user's writes since the user's latest purge that found their key free. */
  function Recorded(events: seq<Event>, user: string): nat {
    if events == [] then 0 else
    var before := events[..|events| - 1];
    match events[|events| - 1]
    case CommitWrite(w) =>
      (match Asked(before, w)
       case Some((key, call)) =>
         Recorded(before, user) + if call.user == user && key !in BookOf(before).usage then 1 else 0
       case None => Recorded(before, user))
    case CommitPurge(p) =>
      if Sought(before, p).Some? && Sought(before, p).value.0 == user then 0 else Recorded(before, user)
    case _ => Recorded(before, user)
  }

  lemma {:induction false} BookCountsCommits(events: seq<Event>, user: string)
    ensures Calls(BookOf(events), user) == Recorded(events, user)
  {
    hide Asked, Sought, Clock;
    if events != [] {
      BookCountsCommits(events[..|events| - 1], user);
    }
  }

  /** So the rollup is the number of those commits, pruned or not. */
  lemma RollupCountsCommits(events: seq<Event>, user: string)
    requires Run(events).Some?
    ensures var s := Run(events).value;
            (if user in s.daily then s.daily[user] else 0) == Recorded(events, user)
  {
    TablesAreTheBook(events);
    BookCountsCommits(events, user);
    hide Run, BookOf, Recorded;
  }

  // ---------------------------------------------------------------- A write that nothing stands in the way of

  ghost predicate Unpurged(s: State, user: string) {
    forall p | p in s.purges && s.purges[p].user == user :: s.purges[p].phase.Queued? || s.purges[p].phase.Ended?
  }

  lemma LockIsGranted(s: State, w: nat)
    requires w in s.writers && s.writers[w].phase.Waiting? && Unpurged(s, s.writers[w].call.user)
    ensures Enabled(s, LockWrite(w)) && Apply(s, LockWrite(w)) == WithWriter(s, w, Locked)
  {
  }

  lemma StartedWrite(s: State, w: nat, key: RowKey, call: Call)
    requires w !in s.writers && call.born <= s.now
    ensures Enabled(s, StartWrite(w, key, call))
    ensures Apply(s, StartWrite(w, key, call)) == s.(writers := s.writers[w := Writer(key, call, Waiting)])
  {
  }

  lemma LockedWriteGoesOn(s: State, w: nat)
    requires w in s.writers && s.writers[w].phase.Locked? && s.writers[w].call.user !in s.fences
    ensures Enabled(s, CheckFence(w)) && Apply(s, CheckFence(w)) == WithWriter(s, w, Unfenced)
  {
  }

  lemma CheckedWriteCommits(s: State, w: nat)
    requires w in s.writers && s.writers[w].phase.Unfenced?
    ensures Enabled(s, CommitWrite(w))
    ensures var Writer(key, call, _) := s.writers[w];
            && Tables(Apply(s, CommitWrite(w))) == Noted(Tables(s), key, call)
            && w in Apply(s, CommitWrite(w)).writers
            && Apply(s, CommitWrite(w)).writers[w].phase.Finished?
            && (Apply(s, CommitWrite(w)).writers[w].phase.recorded <==> key !in s.usage)
  {
  }

  /** The transactions of other users and the phase of every other writer play no part: a write whose user has no fence
      and no purge under way can run to its end from any state, and leaves its own call under its key and one call more
      in the rollup, unless the key was there. */
  lemma UnfencedWriteIsRecorded(events: seq<Event>, w: nat, key: RowKey, call: Call)
    requires Run(events).Some? && w !in Run(events).value.writers && call.born <= Run(events).value.now
    requires call.user !in Run(events).value.fences && Unpurged(Run(events).value, call.user)
    ensures var s := Run(events).value;
            var run := Run(events + [StartWrite(w, key, call)] + [LockWrite(w)] + [CheckFence(w)] + [CommitWrite(w)]);
            && run.Some?
            && w in run.value.writers && run.value.writers[w].phase.Finished?
            && (run.value.writers[w].phase.recorded <==> key !in s.usage)
            && (if key in s.usage then run.value.usage == s.usage && run.value.daily == s.daily
                else run.value.usage == s.usage[key := call]
                     && run.value.daily
                        == s.daily[call.user := 1 + if call.user in s.daily then s.daily[call.user] else 0])
  {
    hide Run, Enabled, Apply;
    var s0 := Run(events).value;
    StartedWrite(s0, w, key, call);
    var s1 := Apply(s0, StartWrite(w, key, call));
    assert Unpurged(s1, call.user);
    LockIsGranted(s1, w);
    var s2 := Apply(s1, LockWrite(w));
    LockedWriteGoesOn(s2, w);
    CheckedWriteCommits(Apply(s2, CheckFence(w)), w);
    Extend(events, StartWrite(w, key, call));
    Extend(events + [StartWrite(w, key, call)], LockWrite(w));
    Extend(events + [StartWrite(w, key, call)] + [LockWrite(w)], CheckFence(w));
    Extend(events + [StartWrite(w, key, call)] + [LockWrite(w)] + [CheckFence(w)], CommitWrite(w));
  }

  /** And one that finds a fence ends without a trace. */
  lemma FencedWriteIsRefused(events: seq<Event>, w: nat)
    requires Run(events).Some? && Enabled(Run(events).value, CheckFence(w))
    requires Run(events).value.writers[w].call.user in Run(events).value.fences
    ensures var s, after := Run(events).value, Run(events + [CheckFence(w)]);
            && after.Some? && after.value.writers[w].phase == Finished(false)
            && !Enabled(after.value, CommitWrite(w))
            && after.value.usage == s.usage && after.value.daily == s.daily
  {
    Extend(events, CheckFence(w));
  }
}
