/** Rows whose chat, thread or run was deleted before the account: they name nobody any more, and no purge of anybody
    finds them. */
module OrphanedRows {
  import opened Schema
  import opened Sql
  import opened Ownership
  import opened PurgePlan
  import opened PurgeOrder
  import opened PurgeSteps
  import opened AccountPurge
  import opened Wrappers

  /** Nothing the row could be known by as somebody's is left: it carries no user id, and what it names is gone. */
  predicate Orphan(db: Database, r: Ref) {
    && r in db
    && match r.table
       case Approvals =>
         && !Leads(db, r, ThreadId, Threads) && !Leads(db, r, ChatId, Chats)
         && !Leads(db, r, TemporalWorkflowId, Workflows)
       case Questions =>
         && !Leads(db, r, ChatId, Chats) && !Leads(db, r, WorkflowId, Workflows)
         && !Leads(db, r, TemporalWorkflowId, Workflows)
       case WorkflowCheckpoints => !Leads(db, r, ChatId, Chats) && !Leads(db, r, WorkflowId, Workflows)
       case ChatUpdates => !Leads(db, r, ChatId, Chats)
       case Workflows => !Leads(db, r, ChatId, Chats) && OwnerUserId !in db[r]
       case StepExecutions => !Leads(db, r, WorkflowId, Workflows)
       case Plans =>
         ProjectId !in db[r] && !Leads(db, r, ThreadId, Threads) && !Leads(db, r, ThreadId, Chats)
       case UpdateStreamCounters =>
         !(StreamKind in db[r] && db[r][StreamKind] == "user") && !Leads(db, r, StreamId, Chats)
       case _ => false
  }

  /** No key can carry the row off with another one. */
  ghost predicate Uncarried(db: Database, r: Ref)
    requires r in db
  {
    forall fk | KeyOf(fk).child == r.table && KeyOf(fk).action == Cascade :: KeyOf(fk).column !in db[r]
  }

  lemma {:induction false} CascadeSparesUncarried(db: Database, doomed: set<Ref>, r: Ref)
    requires doomed <= db.Keys && r in db && r !in doomed && Uncarried(db, r)
    ensures r !in Cascaded(db, doomed)
    decreases db.Keys - doomed
  {
    var next := doomed + set c | c in db && DependsOn(db, c, Cascade, doomed);
    if next != doomed {
      if DependsOn(db, r, Cascade, doomed) {
        var col :| col in db[r] && Hits(db, r, col, Cascade, doomed);
        var fk := HitsHasKey(db, r, col, Cascade, doomed);
        assert false;
      }
      CascadeSparesUncarried(db, next, r);
    }
  }

  /** No statement of the list selects the row. */
  ghost predicate Unselected(db: Database, steps: seq<Step>, user: string, r: Ref)
    requires r in db
  {
    forall s | s in steps && s.statement.DeleteFrom? && s.statement.table == r.table ::
      !Matches(db, db[r], s.statement.where, user)
  }

  lemma StatementSpares(start: Database, db: Database, s: Statement, user: string, r: Ref)
    requires Less(start, db) && r in db && Uncarried(start, r) && Execute(db, s, user).Some?
    requires s.DeleteFrom? && s.table == r.table ==> !Matches(start, start[r], s.where, user)
    ensures r in Execute(db, s, user).value && Less(start, Execute(db, s, user).value)
  {
    if s.DeleteFrom? {
      if r in Touched(db, s, user) {
        ShrinkingSelectsLess(start, db, r, s.where, user);
      }
      CascadeSparesUncarried(db, Touched(db, s, user), r);
    }
  }

  lemma LessThanNothing(db: Database)
    ensures Less(db, db)
  {
  }

  /** Such a row stays whatever the list, the database and the user. */
  lemma {:induction false} UnselectedStays(db: Database, steps: seq<Step>, k: nat, user: string, r: Ref)
    requires r in db && Uncarried(db, r) && Unselected(db, steps, user, r)
    requires k <= |steps| && RunFirst(db, steps, k, user).Some?
    ensures r in RunFirst(db, steps, k, user).value.db && Less(db, RunFirst(db, steps, k, user).value.db)
  {
    hide Execute, Touched, Less, Matches, Uncarried;
    if k == 0 {
      LessThanNothing(db);
    } else {
      UnselectedStays(db, steps, k - 1, user, r);
      assert steps[k - 1] in steps;
      StatementSpares(db, RunFirst(db, steps, k - 1, user).value.db, steps[k - 1].statement, user, r);
    }
  }

  // ---------------------------------------------------------------- Orphans

  lemma OrphansAreUncarried(db: Database, r: Ref)
    requires Orphan(db, r)
    ensures r in db && Uncarried(db, r)
  {
  }

  /** An orphan is nobody's, and no purge looks for it. */
  lemma OrphanIsNobodys(db: Database, r: Ref, user: string)
    requires Orphan(db, r)
    ensures !Owned(db, user, r) && !Found(db, user, r)
  {
  }

  lemma OrphanStaysOrphan(db: Database, after: Database, r: Ref)
    requires Orphan(db, r) && r in after && Less(db, after)
    ensures Orphan(after, r)
  {
  }

  /** A safe list selects only what the purge finds. */
  lemma UnfoundIsUnselected(db: Database, steps: seq<Step>, user: string, r: Ref)
    requires OrderSafe(steps) && r in db && !Found(db, user, r)
    ensures Unselected(db, steps, user, r)
  {
    hide Finds, Matches, Readable, Unblocked, Loose;
    forall s | s in steps && s.statement.DeleteFrom? && s.statement.table == r.table
      ensures !Matches(db, db[r], s.statement.where, user)
    {
      var k :| 0 <= k < |steps| && steps[k] == s;
      assert StepSafe(steps, k);
    }
  }

  lemma OrphanOutlivesSafeList(db: Database, steps: seq<Step>, user: string, r: Ref)
    requires Orphan(db, r) && OrderSafe(steps) && Run(db, steps, user).Some?
    ensures Orphan(Run(db, steps, user).value.db, r)
  {
    OrphansAreUncarried(db, r);
    OrphanIsNobodys(db, r, user);
    hide Orphan, Uncarried, Unselected, OrderSafe, Owned, Found, Less;
    UnfoundIsUnselected(db, steps, user, r);
    UnselectedStays(db, steps, |steps|, user, r);
    OrphanStaysOrphan(db, Run(db, steps, user).value.db, r);
  }

  /** The purges of several users, one after the other. */
  function RunAll(db: Database, users: seq<string>): Option<Database> {
    if users == [] then Some(db) else
    match RunAll(db, users[..|users| - 1])
    case None => None
    case Some(before) =>
      match Run(before, PURGE_STEPS, users[|users| - 1])
      case None => None
      case Some(outcome) => Some(outcome.db)
  }

  /** So it is still there after any number of purges, whoever they were for. */
  lemma {:induction false} OrphanOutlivesEveryPurge(db: Database, users: seq<string>, r: Ref)
    requires Orphan(db, r) && RunAll(db, users).Some?
    ensures Orphan(RunAll(db, users).value, r)
    ensures forall user :: !Owned(RunAll(db, users).value, user, r)
  {
    hide PURGE_STEPS, OrderSafe, Orphan, Owned;
    if users != [] {
      OrphanOutlivesEveryPurge(db, users[..|users| - 1], r);
      PurgeOrderIsSafe();
      OrphanOutlivesSafeList(RunAll(db, users[..|users| - 1]).value, PURGE_STEPS, users[|users| - 1], r);
    }
    forall user ensures !Owned(RunAll(db, users).value, user, r) {
      OrphanIsNobodys(RunAll(db, users).value, r, user);
    }
  }
}
