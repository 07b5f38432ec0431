/** The purge as one transaction, and what it does to the database as a whole. */
module AccountPurge {
  import opened Schema
  import opened Sql
  import opened Ownership
  import opened PurgePlan
  import opened PurgeOrder
  import opened PurgeSteps
  import opened Wrappers

  // ---------------------------------------------------------------- Exactly one user

  /** Nothing the user owned is left, outside the trigger history. */
  ghost predicate Erased(db: Database, after: Database, user: string) {
    forall r | Owned(db, user, r) && !r.table.TriggerEvents? :: r !in after
  }

  /** The purge goes through, removes all of the user's rows and leaves everyone else's as they were. */
  ghost predicate ErasesExactly(db: Database, user: string) {
    var outcome := Run(db, PURGE_STEPS, user);
    outcome.Some? && Erased(db, outcome.value.db, user) && OthersKept(db, outcome.value.db, user)
  }

  /** The tables whose rows the purge looks for elsewhere than at what makes them a user's. */
  predicate IsDetoured(t: Table) {
    || t.Approvals? || t.Questions? || t.Plans? || t.RunEvents? || t.ChatSelections?
    || t.Workflows? || t.StepExecutions? || t.WorkflowCheckpoints? || t.HostedHttpActionTickets?
    || t.AccessTokens? || t.Triggers? || t.TriggerRegistrations? || t.TriggerChanges? || t.ProviderAccountLimits?
  }

  /** Looking there finds them: approvals in the user's chats have a thread in one of them, plans of the user's
      threads a project of the user's, the user's runs a chat of theirs, and so on. */
  ghost predicate WithinReach(db: Database, user: string) {
    forall r | Owned(db, user, r) && IsDetoured(r.table) :: Matches(db, db[r], Way(r.table), user)
  }

  /** The purge of an isolated user goes through, leaves everyone else's rows as they were, and removes exactly the
      rows it finds. */
  lemma IsolatedPurgeRemovesWhatItFinds(db: Database, user: string)
    requires Consistent(db) && Isolated(db, user)
    ensures Run(db, PURGE_STEPS, user).Some?
    ensures var after := Run(db, PURGE_STEPS, user).value.db;
            && OthersKept(db, after, user) && Shrunk(db, after) && Consistent(after)
            && forall r | r in db :: r in after <==> !Found(db, user, r)
  {
    PurgeOrderIsSafe();
    SafeOrderProgresses(db, user, PURGE_STEPS, |PURGE_STEPS|);
    hide PURGE_STEPS, Finds, Matches;
    var after := Run(db, PURGE_STEPS, user).value.db;
    forall r | Found(db, user, r) ensures r !in after {
      var sel := HowFound(db, user, r);
      EveryTableGone(r.table, sel);
      GoneMeansAbsent(db, after, user, PURGE_STEPS, |PURGE_STEPS|, r.table, sel, r);
    }
  }

  /** An owned row is found exactly when its table is looked through at its owner, or its detour leads to it. */
  lemma FoundWhenReached(db: Database, user: string, r: Ref)
    requires Owned(db, user, r)
    ensures Found(db, user, r) <==>
              !r.table.TriggerEvents? && (IsDetoured(r.table) ==> Matches(db, db[r], Way(r.table), user))
  {
    hide Matches;
    var sel :| Owns(r.table, sel) && Matches(db, db[r], sel, user);
    if IsDetoured(r.table) {
      assert forall way :: Finds(r.table, way) <==> way == Way(r.table);
    } else if !r.table.TriggerEvents? {
      assert Finds(r.table, sel);
    }
  }

  lemma ExecuteStaysConsistent(db: Database, s: Statement, user: string)
    requires Consistent(db) && Execute(db, s, user).Some?
    ensures Consistent(Execute(db, s, user).value)
  {
    if s.DeleteFrom? {
      RemovalStaysConsistent(db, Touched(db, s, user));
    } else {
      var after := Execute(db, s, user).value;
      forall fk, c, p | Refers(after, fk, c, p) ensures p in after {
        assert Refers(db, fk, c, p);
      }
    }
  }

  lemma {:induction false} RunStaysConsistent(db: Database, steps: seq<Step>, k: nat, user: string)
    requires Consistent(db) && k <= |steps| && RunFirst(db, steps, k, user).Some?
    ensures Consistent(RunFirst(db, steps, k, user).value.db)
  {
    hide Execute, Touched;
    if k > 0 {
      RunStaysConsistent(db, steps, k - 1, user);
      ExecuteStaysConsistent(RunFirst(db, steps, k - 1, user).value.db, steps[k - 1].statement, user);
    }
  }

  lemma HistoryIsNeverReferredTo(fk: ForeignKey)
    ensures !KeyOf(fk).parent.TriggerEvents?
  {
  }

  lemma ErasingExactlyNeedsIsolation(db: Database, user: string)
    requires Consistent(db) && ErasesExactly(db, user)
    ensures Isolated(db, user)
  {
    RunStaysConsistent(db, PURGE_STEPS, |PURGE_STEPS|, user);
    hide PURGE_STEPS, Owned;
    var after := Run(db, PURGE_STEPS, user).value.db;
    forall fk, c, p | Refers(db, fk, c, p) && Owned(db, user, p) ensures Owned(db, user, c) {
      HistoryIsNeverReferredTo(fk);
      assert Owned(db, user, c) || Refers(after, fk, c, p);
    }
  }

  /** The purge of a user erases exactly that user if and only if no row of anyone else refers to one of theirs, and
      their rows in the detoured tables are where the purge looks. Without the first it is refused, or removes or
      edits someone else's row, or leaves theirs; without the second it leaves theirs. */
  lemma PurgeErasesExactlyOneUser(db: Database, user: string)
    requires Consistent(db)
    ensures ErasesExactly(db, user) <==> Isolated(db, user) && WithinReach(db, user)
  {
    if ErasesExactly(db, user) {
      ErasingExactlyNeedsIsolation(db, user);
    }
    if Isolated(db, user) {
      IsolatedPurgeRemovesWhatItFinds(db, user);
      hide PURGE_STEPS, Owned, Found, Matches, Way;
      forall r | Owned(db, user, r)
        ensures Found(db, user, r) <==>
                  !r.table.TriggerEvents? && (IsDetoured(r.table) ==> Matches(db, db[r], Way(r.table), user))
      {
        FoundWhenReached(db, user, r);
      }
      assert forall r: Ref | IsDetoured(r.table) :: !r.table.TriggerEvents?;
    }
  }

  /** Whatever the purge of an isolated user looks for in the wrong place survives it, and so does trigger history. */
  lemma UnreachedRowSurvives(db: Database, user: string, r: Ref)
    requires Consistent(db) && Isolated(db, user) && Owned(db, user, r)
    requires r.table.TriggerEvents? || (IsDetoured(r.table) && !Matches(db, db[r], Way(r.table), user))
    ensures Run(db, PURGE_STEPS, user).Some? && r in Run(db, PURGE_STEPS, user).value.db
  {
    IsolatedPurgeRemovesWhatItFinds(db, user);
    FoundWhenReached(db, user, r);
  }

  /** So every plan without a project does, which is every plan the code writes, and every approval without a
      thread. */
  lemma PlanWithoutProjectSurvives(db: Database, user: string, r: Ref)
    requires Consistent(db) && Isolated(db, user) && Owned(db, user, r)
    requires (r.table.Plans? && ProjectId !in db[r]) || (r.table.Approvals? && ThreadId !in db[r])
    ensures Run(db, PURGE_STEPS, user).Some? && r in Run(db, PURGE_STEPS, user).value.db
  {
    UnreachedRowSurvives(db, user, r);
  }

  /** The chat by which the purge looks for this row, its own or that of its run, is not there. */
  predicate LostItsChat(db: Database, r: Ref)
    requires r in db
  {
    match r.table
    case Workflows | WorkflowCheckpoints | Questions => !Leads(db, r, ChatId, Chats)
    case StepExecutions | HostedHttpActionTickets =>
      Leads(db, r, WorkflowId, Workflows) ==> !Leads(db, Ref(Workflows, db[r][WorkflowId]), ChatId, Chats)
    case _ => false
  }

  /** And so does every run whose chat was deleted before its user, with its steps, its checkpoints, its
      questions and its action tickets. */
  lemma RunOutlivesItsChat(db: Database, user: string, r: Ref)
    requires Consistent(db) && Isolated(db, user) && Owned(db, user, r) && LostItsChat(db, r)
    ensures Run(db, PURGE_STEPS, user).Some? && r in Run(db, PURGE_STEPS, user).value.db
  {
    UnreachedRowSurvives(db, user, r);
  }

  /** A run of the user whose chat is gone, and a step of it. */
  function DeletedChatsRun(user: string, id: string): Database {
    map[Ref(Workflows, id) := map[OwnerUserId := user, ChatId := id],
        Ref(StepExecutions, id) := map[WorkflowId := id]]
  }

  lemma DeletedChatsRunIsLoose(user: string, id: string, fk: ForeignKey, c: Ref, p: Ref)
    ensures !Refers(DeletedChatsRun(user, id), fk, c, p)
  {
  }

  lemma DeletedChatsRunIsTheirs(user: string, id: string, r: Ref)
    requires r in DeletedChatsRun(user, id)
    ensures Owned(DeletedChatsRun(user, id), user, r) && LostItsChat(DeletedChatsRun(user, id), r)
    ensures !r.table.TriggerEvents?
  {
    var db := DeletedChatsRun(user, id);
    var sel := if r.table.Workflows? then BY_OWNER else BY_OWNED_RUN;
    assert Owns(r.table, sel) && Matches(db, db[r], sel, user);
  }

  lemma DeletedChatsRunIsApart(user: string, id: string)
    ensures Consistent(DeletedChatsRun(user, id)) && Isolated(DeletedChatsRun(user, id), user)
  {
    hide DeletedChatsRun, Refers, Owned;
    forall fk, c, p ensures !Refers(DeletedChatsRun(user, id), fk, c, p) {
      DeletedChatsRunIsLoose(user, id, fk, c, p);
    }
  }

  /** Both belong to the user, and the purge removes neither. */
  lemma DeletedChatsRunIsLeft(user: string, id: string, r: Ref)
    requires r in DeletedChatsRun(user, id)
    ensures var db := DeletedChatsRun(user, id);
            && Consistent(db) && Isolated(db, user) && Owned(db, user, r)
            && Run(db, PURGE_STEPS, user).Some? && r in Run(db, PURGE_STEPS, user).value.db
            && !ErasesExactly(db, user)
  {
    hide DeletedChatsRun, PURGE_STEPS, Owned, LostItsChat, Consistent, Isolated, OthersKept;
    DeletedChatsRunIsApart(user, id);
    DeletedChatsRunIsTheirs(user, id, r);
    RunOutlivesItsChat(DeletedChatsRun(user, id), user, r);
  }

  // ---------------------------------------------------------------- One user's database

  /** Alone in the database a user is isolated. */
  lemma OnlyUserIsIsolated(db: Database, user: string)
    requires forall r | r in db :: Owned(db, user, r)
    ensures Isolated(db, user)
  {
    hide Owned;
  }

  /** A chat with a thread and a tool call, the call's result stored before its message exists, a plan of the thread
      and an approval that has none. */
  function OneUsersChat(user: string, id: string): Database {
    map[Ref(Projects, id) := map[UserId := user],
        Ref(Chats, id) := map[UserId := user, ProjectId := id],
        Ref(Threads, id) := map[ChatId := id],
        Ref(ToolCalls, id) := map[ChatId := id, ThreadId := id],
        Ref(ToolCallResults, id) := map[ToolCallId := id],
        Ref(Plans, id) := map[ThreadId := id],
        Ref(Approvals, id) := map[ChatId := id]]
  }

  lemma OneUsersChatIsConsistent(user: string, id: string)
    ensures Consistent(OneUsersChat(user, id))
  {
    var db := OneUsersChat(user, id);
    forall fk, c, p | Refers(db, fk, c, p) ensures p in db {
      assert c.id == id && p.id == id;
      assert p.table.Projects? || p.table.Chats? || p.table.Threads? || p.table.ToolCalls?;
    }
  }

  lemma OneUsersChatIsTheirs(user: string, id: string, r: Ref)
    requires r in OneUsersChat(user, id)
    ensures Owned(OneUsersChat(user, id), user, r)
    ensures IsDetoured(r.table) ==> !Matches(OneUsersChat(user, id), OneUsersChat(user, id)[r], Way(r.table), user)
  {
    var db := OneUsersChat(user, id);
    assert Matches(db, db[Ref(Chats, id)], BY_USER, user);
    assert Matches(db, db[Ref(Threads, id)], BY_CHAT, user) && Matches(db, db[Ref(ToolCalls, id)], BY_CHAT, user);
    assert Matches(db, db[r], Owner(r.table), user);
    assert Owns(r.table, Owner(r.table));
  }

  lemma OneUsersChatIsFound(user: string, id: string, r: Ref)
    requires r in OneUsersChat(user, id)
    ensures Owned(OneUsersChat(user, id), user, r)
    ensures Found(OneUsersChat(user, id), user, r) <==> !IsDetoured(r.table)
  {
    OneUsersChatIsTheirs(user, id, r);
    FoundWhenReached(OneUsersChat(user, id), user, r);
    hide Owned, Found, Matches, Way;
  }

  lemma OneUsersChatRows(user: string, id: string)
    ensures Ref(Plans, id) in OneUsersChat(user, id) && Ref(Approvals, id) in OneUsersChat(user, id)
    ensures forall r | r in OneUsersChat(user, id) ::
              IsDetoured(r.table) <==> r == Ref(Plans, id) || r == Ref(Approvals, id)
  {
  }

  /** The purge of that user takes the result along with its tool call, and leaves the plan and the approval. */
  lemma OneUsersChatIsPurged(user: string, id: string)
    ensures var db := OneUsersChat(user, id);
            && Consistent(db) && Isolated(db, user) && Run(db, PURGE_STEPS, user).Some?
            && Run(db, PURGE_STEPS, user).value.db.Keys == {Ref(Plans, id), Ref(Approvals, id)}
  {
    OneUsersChatIsConsistent(user, id);
    OneUsersChatRows(user, id);
    hide OneUsersChat, PURGE_STEPS, Owned, Found, Consistent, Isolated, IsDetoured, OthersKept;
    var db := OneUsersChat(user, id);
    forall r | r in db ensures Owned(db, user, r) && (Found(db, user, r) <==> !IsDetoured(r.table)) {
      OneUsersChatIsFound(user, id, r);
    }
    OnlyUserIsIsolated(db, user);
    IsolatedPurgeRemovesWhatItFinds(db, user);
  }

  /** Nothing stops a chat from sitting in someone else's project, and then the purge of the project's
      owner does reach another user's data. */
  lemma SharedProjectBreaksIsolation(owner: string, guest: string, project: string, chat: string)
    requires owner != guest
    ensures var db := map[Ref(Projects, project) := map[UserId := owner],
                          Ref(Chats, chat) := map[UserId := guest, ProjectId := project]];
            Consistent(db) && !ErasesExactly(db, owner)
  {
    var p, c := Ref(Projects, project), Ref(Chats, chat);
    var db: Database := map[p := map[UserId := owner], c := map[UserId := guest, ProjectId := project]];
    assert Consistent(db) by {
      forall fk, x, y | Refers(db, fk, x, y) ensures y in db {
        ProjectLinksOnly(fk);
      }
    }
    assert Owns(Projects, BY_USER) && Matches(db, db[p], BY_USER, owner);
    assert Refers(db, IntoProjects(ChatsProject), c, p);
    assert !Owned(db, owner, c);
    PurgeErasesExactlyOneUser(db, owner);
  }

  lemma ProjectLinksOnly(fk: ForeignKey)
    ensures KeyOf(fk).child.Chats? ==> KeyOf(fk) == Key(Chats, ProjectId, Projects, Cascade)
    ensures !KeyOf(fk).child.Projects?
    ensures !KeyOf(fk).column.UserId?
  {
  }

  // ---------------------------------------------------------------- Running it again

  lemma NothingDependsOnNothing(db: Database, c: Ref, action: Action)
    ensures !DependsOn(db, c, action, {})
  {
    if DependsOn(db, c, action, {}) {
      var col :| col in db[c] && Hits(db, c, col, action, {});
      var fk := HitsHasKey(db, c, col, action, {});
    }
  }

  lemma RemovingNothing(db: Database)
    ensures Cascaded(db, {}) == {} && !Refused(db, {}) && Removed(db, {}) == db
  {
    forall c, action ensures !DependsOn(db, c, action, {}) {
      NothingDependsOnNothing(db, c, action);
    }
    forall r | r in db ensures Unlinked(db, r, {}) == db[r] {
      forall col | col in db[r] ensures !Hits(db, r, col, SetNull, {}) {
        assert !DependsOn(db, r, SetNull, {});
      }
    }
  }

  lemma NoTargetsNoChange(db: Database, s: Statement, user: string)
    requires Touched(db, s, user) == {}
    ensures Execute(db, s, user) == Some(db)
  {
    if s.DeleteFrom? {
      RemovingNothing(db);
    } else {
      assert Execute(db, s, user).value == db;
    }
  }

  lemma ExecuteOnlyRemoves(db: Database, s: Statement, user: string)
    requires Execute(db, s, user).Some?
    ensures Less(db, Execute(db, s, user).value)
  {
  }

  lemma LessIsTouchedLess(db: Database, after: Database, s: Statement, user: string)
    requires Less(db, after)
    ensures Touched(after, s, user) <= Touched(db, s, user)
  {
    forall r | r in Touched(after, s, user) ensures r in Touched(db, s, user) {
      ShrinkingSelectsLess(db, after, r, s.where, user);
    }
  }

  /** A statement that has run finds nothing more to do. */
  lemma ExecuteExhausts(db: Database, s: Statement, user: string)
    requires Execute(db, s, user).Some?
    ensures Touched(Execute(db, s, user).value, s, user) == {}
  {
    ExecuteOnlyRemoves(db, s, user);
    LessIsTouchedLess(db, Execute(db, s, user).value, s, user);
  }

  lemma {:induction false} RunExhausts(db: Database, steps: seq<Step>, j: nat, k: nat, user: string)
    requires j < k <= |steps| && RunFirst(db, steps, k, user).Some?
    ensures Touched(RunFirst(db, steps, k, user).value.db, steps[j].statement, user) == {}
    decreases k
  {
    hide Execute, Touched, Less;
    var before := RunFirst(db, steps, k - 1, user).value.db;
    if j == k - 1 {
      ExecuteExhausts(before, steps[j].statement, user);
    } else {
      RunExhausts(db, steps, j, k - 1, user);
      ExecuteOnlyRemoves(before, steps[k - 1].statement, user);
      LessIsTouchedLess(before, RunFirst(db, steps, k, user).value.db, steps[j].statement, user);
    }
  }

  lemma {:induction false} FinishedRunRepeats(db: Database, steps: seq<Step>, k: nat, user: string)
    requires k <= |steps| && forall j | 0 <= j < k :: Touched(db, steps[j].statement, user) == {}
    ensures RunFirst(db, steps, k, user) == Some(Outcome(db, 0))
  {
    hide Execute, Touched;
    if k > 0 {
      FinishedRunRepeats(db, steps, k - 1, user);
      NoTargetsNoChange(db, steps[k - 1].statement, user);
    }
  }

  /** On any database, isolated or not, a purge that went through leaves nothing for a second one: it goes through
      too, touches no row and changes nothing. */
  lemma SecondPurgeFindsNothing(db: Database, user: string)
    requires Run(db, PURGE_STEPS, user).Some?
    ensures var after := Run(db, PURGE_STEPS, user).value.db;
            Run(after, PURGE_STEPS, user) == Some(Outcome(after, 0))
  {
    hide PURGE_STEPS, Touched;
    var after := Run(db, PURGE_STEPS, user).value.db;
    forall j | 0 <= j < |PURGE_STEPS| ensures Touched(after, PURGE_STEPS[j].statement, user) == {} {
      RunExhausts(db, PURGE_STEPS, j, |PURGE_STEPS|, user);
    }
    FinishedRunRepeats(after, PURGE_STEPS, |PURGE_STEPS|, user);
  }

  // ---------------------------------------------------------------- Where every row went

  /** Rows that went by cascade: removed, but counted by no statement. */
  function CarriedOff(db: Database, s: Statement, user: string): nat {
    if s.DeleteFrom? then |Cascaded(db, Touched(db, s, user)) - Touched(db, s, user)| else 0
  }

  function CarriedOffFirst(db: Database, steps: seq<Step>, k: nat, user: string): nat
    requires k <= |steps|
  {
    if k == 0 then 0 else
    match RunFirst(db, steps, k - 1, user)
    case None => 0
    case Some(sofar) => CarriedOffFirst(db, steps, k - 1, user) + CarriedOff(sofar.db, steps[k - 1].statement, user)
  }

  /** Rows a statement counts because a column of theirs was cleared: they are still there. */
  function Edited(db: Database, s: Statement, user: string): nat {
    if s.ClearColumn? then |Touched(db, s, user)| else 0
  }

  function EditedFirst(db: Database, steps: seq<Step>, k: nat, user: string): nat
    requires k <= |steps|
  {
    if k == 0 then 0 else
    match RunFirst(db, steps, k - 1, user)
    case None => 0
    case Some(sofar) => EditedFirst(db, steps, k - 1, user) + Edited(sofar.db, steps[k - 1].statement, user)
  }

  lemma SubsetSize(part: set<Ref>, whole: set<Ref>)
    requires part <= whole
    ensures |whole| == |part| + |whole - part|
  {
    assert whole == part + (whole - part);
  }

  lemma DeleteBalances(db: Database, s: Statement, user: string)
    requires s.DeleteFrom? && Execute(db, s, user).Some?
    ensures |db| == |Execute(db, s, user).value| + |Touched(db, s, user)| + CarriedOff(db, s, user)
  {
    var touched := Touched(db, s, user);
    var all := Cascaded(db, touched);
    assert Execute(db, s, user).value.Keys == db.Keys - all;
    SubsetSize(touched, all);
    SubsetSize(all, db.Keys);
  }

  lemma ClearBalances(db: Database, s: Statement, user: string)
    requires s.ClearColumn?
    ensures Execute(db, s, user).Some? && |db| == |Execute(db, s, user).value|
  {
    assert Execute(db, s, user).value.Keys == db.Keys;
  }

  lemma StatementBalances(db: Database, s: Statement, user: string)
    requires Execute(db, s, user).Some?
    ensures |Touched(db, s, user)| + CarriedOff(db, s, user) + |Execute(db, s, user).value|
            == |db| + Edited(db, s, user)
  {
    hide Execute, Touched;
    if s.DeleteFrom? {
      DeleteBalances(db, s, user);
    } else {
      ClearBalances(db, s, user);
    }
  }

  /** The total a purge reports, the rows it cascaded and the rows it left add up to the rows there were,
      once the cleared fork pointers, which are counted but not removed, are taken off. */
  lemma {:induction false} EveryRowIsAccountedFor(db: Database, steps: seq<Step>, k: nat, user: string)
    requires k <= |steps| && RunFirst(db, steps, k, user).Some?
    ensures var o := RunFirst(db, steps, k, user).value;
            o.total + CarriedOffFirst(db, steps, k, user) + |o.db| == |db| + EditedFirst(db, steps, k, user)
  {
    hide Execute, Touched, CarriedOff, Edited;
    if k > 0 {
      EveryRowIsAccountedFor(db, steps, k - 1, user);
      StatementBalances(RunFirst(db, steps, k - 1, user).value.db, steps[k - 1].statement, user);
    }
  }

  // ---------------------------------------------------------------- The obvious implementation

  ghost predicate InUsersChats(db: Database, user: string, r: Ref) {
    && (r.table.Chats? ==> r in db && Matches(db, db[r], BY_USER, user))
    && (r.table.Threads? || r.table.Messages? ==> r in db && Matches(db, db[r], BY_CHAT, user))
    && Reaches(Chats, r.table)
  }

  lemma TranscriptKeysComeFromChats(fk: ForeignKey)
    requires KeyOf(fk).action == Cascade && Reaches(Chats, KeyOf(fk).parent)
    ensures KeyOf(fk).child.Threads? || KeyOf(fk).child.Messages? ==>
              KeyOf(fk).parent == Chats && KeyOf(fk).column == ChatId
    ensures !KeyOf(fk).child.Chats?
  {
  }

  lemma {:induction false} ChatCascadeStaysInChats(db: Database, user: string, doomed: set<Ref>)
    requires doomed <= db.Keys && forall r | r in doomed :: InUsersChats(db, user, r)
    ensures forall r | r in Cascaded(db, doomed) :: InUsersChats(db, user, r)
    decreases db.Keys - doomed
  {
    var next := doomed + set c | c in db && DependsOn(db, c, Cascade, doomed);
    if next != doomed {
      forall c | c in db && DependsOn(db, c, Cascade, doomed) ensures InUsersChats(db, user, c) {
        var col :| col in db[c] && Hits(db, c, col, Cascade, doomed);
        var fk := HitsHasKey(db, c, col, Cascade, doomed);
        ReachesFollowsCascades(Chats, fk);
        TranscriptKeysComeFromChats(fk);
      }
      ChatCascadeStaysInChats(db, user, next);
    }
  }

  lemma ChatCascadeTakesTranscript(db: Database, user: string, key: ChatKey, r: Ref)
    requires key.ThreadsChat? || key.MessagesChat?
    requires r in db && r.table == ChatKeyOf(key).child && Matches(db, db[r], BY_CHAT, user)
    ensures r in Cascaded(db, Targets(db, Chats, BY_USER, user))
  {
    var all := Cascaded(db, Targets(db, Chats, BY_USER, user));
    var chat := Ref(Chats, db[r][ChatId]);
    assert chat in Targets(db, Chats, BY_USER, user);
    assert HitsThrough(db, IntoChats(key), r, ChatId, Cascade, all);
    HitsAnyKey(db, IntoChats(key), r, ChatId, Cascade, all);
    assert DependsOn(db, r, Cascade, all);
  }

  /** A row that pins a thread or a message of one of the user's chats. */
  ghost predicate Pins(db: Database, user: string, fk: ForeignKey, c: Ref, p: Ref) {
    && KeyOf(fk).action == Restrict
    && Refers(db, fk, c, p)
    && p in db
    && Matches(db, db[p], BY_CHAT, user)
  }

  lemma RefusedKeyIsAPin(db: Database, user: string, fk: ForeignKey, c: Ref, action: Action, all: set<Ref>)
    requires Refusing(action) && HitsThrough(db, fk, c, KeyOf(fk).column, action, all)
    requires all <= db.Keys && forall r | r in all :: InUsersChats(db, user, r)
    ensures Pins(db, user, fk, c, Ref(KeyOf(fk).parent, db[c][KeyOf(fk).column]))
  {
    RefusableRoots(Chats, fk);
    RefusingGroups(fk);
  }

  lemma RefusalIsAPin(db: Database, user: string, c: Ref, action: Action)
    requires Refusing(action)
    requires DependsOn(db, c, action, Cascaded(db, Targets(db, Chats, BY_USER, user)))
    ensures exists fk, p :: Pins(db, user, fk, c, p)
  {
    var all := Cascaded(db, Targets(db, Chats, BY_USER, user));
    ChatCascadeStaysInChats(db, user, Targets(db, Chats, BY_USER, user));
    var col :| col in db[c] && Hits(db, c, col, action, all);
    var fk := HitsHasKey(db, c, col, action, all);
    RefusedKeyIsAPin(db, user, fk, c, action, all);
  }

  lemma PinIsARefusal(db: Database, user: string, fk: ForeignKey, c: Ref, p: Ref)
    requires Pins(db, user, fk, c, p)
    ensures DependsOn(db, c, Restrict, Cascaded(db, Targets(db, Chats, BY_USER, user)))
  {
    RefusingGroups(fk);
    if fk.IntoMessages? {
      ChatCascadeTakesTranscript(db, user, MessagesChat, p);
    } else {
      ChatCascadeTakesTranscript(db, user, ThreadsChat, p);
    }
    HitsAnyKey(db, fk, c, KeyOf(fk).column, Restrict, Cascaded(db, Targets(db, Chats, BY_USER, user)));
  }

  /** `DELETE FROM chats` as the first statement is refused exactly when a message, tool call, approval,
      fork pointer or context window pins a thread or a message of one of the user's chats. */
  lemma ChatsFirstIsRefusedExactly(db: Database, user: string)
    ensures Execute(db, DeleteFrom(Chats, BY_USER), user).None? <==> exists fk, c, p :: Pins(db, user, fk, c, p)
  {
    var all := Cascaded(db, Targets(db, Chats, BY_USER, user));
    forall c, action | Refusing(action) && DependsOn(db, c, action, all)
      ensures exists fk, p :: Pins(db, user, fk, c, p)
    {
      RefusalIsAPin(db, user, c, action);
    }
    forall fk, c, p | Pins(db, user, fk, c, p) ensures DependsOn(db, c, Restrict, all) {
      PinIsARefusal(db, user, fk, c, p);
    }
  }

  /** So it is refused for any user with a message whose thread is in one of their chats. */
  lemma ChatsFirstFailsOnAnyMessage(db: Database, user: string, m: Ref)
    requires Consistent(db) && m in db && m.table == Messages && ThreadId in db[m]
    requires Ref(Threads, db[m][ThreadId]) in db ==> Matches(db, db[Ref(Threads, db[m][ThreadId])], BY_CHAT, user)
    ensures Execute(db, DeleteFrom(Chats, BY_USER), user).None?
  {
    var p := Ref(Threads, db[m][ThreadId]);
    assert Refers(db, IntoThreads(MessagesThread), m, p);
    assert Pins(db, user, IntoThreads(MessagesThread), m, p);
    ChatsFirstIsRefusedExactly(db, user);
  }

  // ---------------------------------------------------------------- The transaction

  /** What the driver answers to one statement: it ran, it ran but its row count is unavailable, or it failed. */
  datatype Reply = Ran | CountLost | Broke

  /** The failures a purge can meet that are not the database's own refusals. */
  datatype Driver = Driver(begins: bool, locks: bool, fences: bool, replies: seq<Reply>, commits: bool) {
    function At(i: nat): Reply {
      if i < |replies| then replies[i] else Ran
    }

    /** No statement of a list this long fails. */
    predicate Runs(count: nat) {
      forall i | 0 <= i < count :: At(i) != Broke
    }
  }

  datatype PurgeError =
    | EmptyUserId | BeginFailed | LockFailed | FenceFailed | StepFailed(name: string) | CommitFailed

  /** The rows of the first `k` steps whose count the driver could report. */
  function ReportedFirst(db: Database, steps: seq<Step>, k: nat, user: string, driver: Driver): nat
    requires k <= |steps|
  {
    if k == 0 then 0 else
    match RunFirst(db, steps, k - 1, user)
    case None => 0
    case Some(sofar) =>
      ReportedFirst(db, steps, k - 1, user, driver)
      + if driver.At(k - 1) == Ran then |Touched(sofar.db, steps[k - 1].statement, user)| else 0
  }

  /** The rows of the first `k` steps whose count the driver lost. */
  function LostFirst(db: Database, steps: seq<Step>, k: nat, user: string, driver: Driver): nat
    requires k <= |steps|
  {
    if k == 0 then 0 else
    match RunFirst(db, steps, k - 1, user)
    case None => 0
    case Some(sofar) =>
      LostFirst(db, steps, k - 1, user, driver)
      + if driver.At(k - 1) == CountLost then |Touched(sofar.db, steps[k - 1].statement, user)| else 0
  }

  /** The reported total and the rows whose count was lost are all the rows the statements touched. */
  lemma {:induction false} ReportIsExact(db: Database, steps: seq<Step>, k: nat, user: string, driver: Driver)
    requires k <= |steps| && RunFirst(db, steps, k, user).Some? && driver.Runs(k)
    ensures ReportedFirst(db, steps, k, user, driver) + LostFirst(db, steps, k, user, driver)
            == RunFirst(db, steps, k, user).value.total
    ensures (forall i | 0 <= i < k :: driver.At(i) == Ran) ==> LostFirst(db, steps, k, user, driver) == 0
  {
    hide Execute, Touched;
    if k > 0 {
      ReportIsExact(db, steps, k - 1, user, driver);
    }
  }

  lemma {:induction false} RefusalIsFinal(db: Database, steps: seq<Step>, j: nat, k: nat, user: string)
    requires j <= k <= |steps| && RunFirst(db, steps, j, user).None?
    ensures RunFirst(db, steps, k, user).None?
  {
    hide Execute, Touched;
    if j < k {
      RefusalIsFinal(db, steps, j, k - 1, user);
    }
  }

  /** The first statement that does not go through is the one at `k`. */
  predicate StopsAt(db: Database, steps: seq<Step>, k: nat, user: string, driver: Driver)
    requires k < |steps|
  {
    && driver.Runs(k) && RunFirst(db, steps, k, user).Some?
    && (driver.At(k) == Broke || RunFirst(db, steps, k + 1, user).None?)
  }

  /** The statements of one transaction, in order, up to the first that fails. */
  method RunStatements(db: Database, steps: seq<Step>, user: string, driver: Driver)
    returns (tx: Database, total: nat, failed: Option<string>)
    ensures failed.None? <==> driver.Runs(|steps|) && Run(db, steps, user).Some?
    ensures failed.None? ==> tx == Run(db, steps, user).value.db
    ensures failed.None? ==> total == ReportedFirst(db, steps, |steps|, user, driver)
    ensures failed.Some? ==>
              exists k | 0 <= k < |steps| :: steps[k].name == failed.value && StopsAt(db, steps, k, user, driver)
  {
    hide Execute, Touched;
    tx, total := db, 0;
    ghost var touched: nat := 0;
    var i := 0;
    while i < |steps|
      invariant 0 <= i <= |steps|
      invariant RunFirst(db, steps, i, user) == Some(Outcome(tx, touched))
      invariant total == ReportedFirst(db, steps, i, user, driver)
      invariant driver.Runs(i)
    {
      var after := Execute(tx, steps[i].statement, user);
      if driver.At(i) == Broke {
        assert StopsAt(db, steps, i, user, driver);
        return tx, 0, Some(steps[i].name);
      }
      if after.None? {
        RefusalIsFinal(db, steps, i + 1, |steps|, user);
        assert StopsAt(db, steps, i, user, driver);
        return tx, 0, Some(steps[i].name);
      }
      if driver.At(i) == Ran {
        total := total + |Touched(tx, steps[i].statement, user)|;
      }
      touched := touched + |Touched(tx, steps[i].statement, user)|;
      tx := after.value;
      i := i + 1;
    }
    return tx, total, None;
  }

  class Store {
    /** The committed rows, and the ledger's fence: when each purged user's purge began. */
    var rows: Database
    var purgedAt: map<string, int>

    constructor (rows: Database)
      ensures this.rows == rows && purgedAt == map[]
    {
      this.rows := rows;
      purgedAt := map[];
    }

    /** Deletes every row owned by the user, in one transaction. Either everything goes or nothing does. */
    method Purge(user: string, now: int, driver: Driver) returns (total: nat, err: Option<PurgeError>)
      modifies this
      ensures err.None? <==> user != "" && driver.begins && driver.locks && driver.fences && driver.commits
                             && driver.Runs(|PURGE_STEPS|) && Run(old(rows), PURGE_STEPS, user).Some?
      ensures err.None? ==> rows == Run(old(rows), PURGE_STEPS, user).value.db
      ensures err.None? ==> purgedAt == old(purgedAt)[user := now]
      ensures err.None? ==> total == ReportedFirst(old(rows), PURGE_STEPS, |PURGE_STEPS|, user, driver)
      ensures err.Some? ==> total == 0 && rows == old(rows) && purgedAt == old(purgedAt)
      ensures err == Some(EmptyUserId) <==> user == ""
      ensures err == Some(BeginFailed) <==> user != "" && !driver.begins
      ensures err == Some(LockFailed) <==> user != "" && driver.begins && !driver.locks
      ensures err == Some(FenceFailed) <==> user != "" && driver.begins && driver.locks && !driver.fences
      ensures err.Some? && err.value.StepFailed? ==>
                exists k | 0 <= k < |PURGE_STEPS| :: PURGE_STEPS[k].name == err.value.name
                                                     && StopsAt(old(rows), PURGE_STEPS, k, user, driver)
    {
      if user == "" {
        return 0, Some(EmptyUserId);
      }
      if !driver.begins {
        return 0, Some(BeginFailed);
      }
      if !driver.locks {
        return 0, Some(LockFailed);
      }
      if !driver.fences {
        return 0, Some(FenceFailed);
      }
      var fenced := purgedAt[user := now];
      var tx, sum, failed := RunStatements(rows, PURGE_STEPS, user, driver);
      if failed.Some? {
        return 0, Some(StepFailed(failed.value));
      }
      if !driver.commits {
        return 0, Some(CommitFailed);
      }
      rows, purgedAt := tx, fenced;
      return sum, None;
    }
  }
}
