/** The purge against the SQL it consists of, table by table and column by column: the rows its statements name, the
    rows that go with them, and whose each row is. Nothing here refers to the list of statements or to its WHERE
    clauses; the lemmas say that the list does this and no other. */
module PurgeAudit {
  import opened Schema
  import opened Sql
  import opened Ownership
  import opened PurgePlan
  import opened PurgeOrder
  import opened PurgeSteps
  import opened AccountPurge
  import opened OrphanedRows
  import opened Wrappers

  // ---------------------------------------------------------------- In columns

  predicate Says(db: Database, r: Ref, col: Column, value: string)
    requires r in db
  {
    col in db[r] && db[r][col] == value
  }

  /** The row that a column names carries the user's id. */
  predicate Names(db: Database, r: Ref, col: Column, parent: Table, owner: Column, user: string)
    requires r in db
  {
    col in db[r] && Ref(parent, db[r][col]) in db && Says(db, Ref(parent, db[r][col]), owner, user)
  }

  predicate InChat(db: Database, r: Ref, user: string)
    requires r in db
  {
    Names(db, r, ChatId, Chats, UserId, user)
  }

  predicate InProject(db: Database, r: Ref, user: string)
    requires r in db
  {
    Names(db, r, ProjectId, Projects, UserId, user)
  }

  /** The row that a column names is in a chat of the user's. */
  predicate Under(db: Database, r: Ref, col: Column, parent: Table, user: string)
    requires r in db
  {
    col in db[r] && Ref(parent, db[r][col]) in db && InChat(db, Ref(parent, db[r][col]), user)
  }

  predicate OfTrigger(db: Database, r: Ref, user: string)
    requires r in db
  {
    TriggerId in db[r] && Ref(Triggers, db[r][TriggerId]) in db && InProject(db, Ref(Triggers, db[r][TriggerId]), user)
  }

  /** The rows that a statement of the purge names itself. */
  predicate Selects(db: Database, r: Ref, user: string)
    requires r in db
  {
    match r.table
    case MessageContentBlocks | ToolCallResults => Under(db, r, MessageId, Messages, user)
    case Approvals | ContextWindows => Under(db, r, ThreadId, Threads, user)
    case StepExecutions => Under(db, r, WorkflowId, Workflows, user)
    case ToolCalls | AgentMessages | Messages | Threads | WorkflowCheckpoints | Questions | ChatUpdates | Workflows =>
      InChat(db, r, user)
    case BackgroundProcessOutput => Names(db, r, ProcessId, BackgroundProcesses, UserId, user)
    case UpdateStreamCounters =>
      || (Says(db, r, StreamKind, "user") && Says(db, r, StreamId, user))
      || (Says(db, r, StreamKind, "chat") && Names(db, r, StreamId, Chats, UserId, user))
    case Plans | ProjectConfigs | ProjectDaemons | Repos | Worktrees => InProject(db, r, user)
    case Chats | Projects | UserUpdates | BackgroundProcesses | ConnectorClientBindings | ConnectorGrants | Daemons
       | ProviderAccounts | Connections | Plain(_) => Says(db, r, UserId, user)
    case AccessTokens => Says(db, r, ActingUserId, user)
    case VaultKeys => Says(db, r, TenantKind, "user") && Says(db, r, TenantId, user)
    case _ => false
  }

  /** The rows that hang off one of those by a cascading key. */
  predicate Follows(db: Database, r: Ref, user: string)
    requires r in db
  {
    match r.table
    case RunEvents | ChatSelections => InChat(db, r, user)
    case ToolCallResults => Under(db, r, ToolCallId, ToolCalls, user)
    case ThreadProviderAccounts => Under(db, r, ThreadId, Threads, user)
    case HostedHttpActionTickets => Under(db, r, WorkflowId, Workflows, user)
    case Triggers | ProjectMachineCatalogs | WorkflowCatalogSnapshots => InProject(db, r, user)
    case TriggerRegistrations | TriggerChanges => OfTrigger(db, r, user)
    case ProviderAccountLimits => Names(db, r, AccountId, ProviderAccounts, UserId, user)
    case ConnectionSecrets => Names(db, r, ConnectionId, Connections, UserId, user)
    case _ => false
  }

  /** Whose a row is. */
  predicate Belongs(db: Database, r: Ref, user: string)
    requires r in db
  {
    match r.table
    case Threads | Messages | ToolCalls | AgentMessages | ChatUpdates => InChat(db, r, user)
    case Workflows => InChat(db, r, user) || Says(db, r, OwnerUserId, user)
    case WorkflowCheckpoints => InChat(db, r, user) || Names(db, r, WorkflowId, Workflows, OwnerUserId, user)
    case Approvals => InChat(db, r, user) || Names(db, r, TemporalWorkflowId, Workflows, OwnerUserId, user)
    case Questions =>
      || InChat(db, r, user) || Names(db, r, WorkflowId, Workflows, OwnerUserId, user)
      || Names(db, r, TemporalWorkflowId, Workflows, OwnerUserId, user)
    case StepExecutions =>
      Under(db, r, WorkflowId, Workflows, user) || Names(db, r, WorkflowId, Workflows, OwnerUserId, user)
    case MessageContentBlocks => Under(db, r, MessageId, Messages, user)
    case ToolCallResults => Under(db, r, ToolCallId, ToolCalls, user)
    case ContextWindows | ThreadProviderAccounts => Under(db, r, ThreadId, Threads, user)
    case Plans =>
      || Under(db, r, ThreadId, Threads, user) || Names(db, r, ThreadId, Chats, UserId, user)
      || InProject(db, r, user)
    case ProjectConfigs | ProjectDaemons | Repos | Worktrees | ProjectMachineCatalogs | WorkflowCatalogSnapshots =>
      InProject(db, r, user)
    case BackgroundProcessOutput => Names(db, r, ProcessId, BackgroundProcesses, UserId, user)
    case UpdateStreamCounters =>
      || (Says(db, r, StreamKind, "user") && Says(db, r, StreamId, user))
      || (Says(db, r, StreamKind, "chat") && Names(db, r, StreamId, Chats, UserId, user))
    case TriggerRegistrations => Names(db, r, TriggerId, Triggers, UserId, user)
    case ConnectionSecrets => Names(db, r, ConnectionId, Connections, UserId, user)
    case HostedHttpActionTickets => Says(db, r, OwnerUserId, user)
    case AccessTokens => Says(db, r, ActingUserId, user) || Says(db, r, CreatedByUserId, user)
    case VaultKeys => Says(db, r, TenantKind, "user") && Says(db, r, TenantId, user)
    case _ => Says(db, r, UserId, user)
  }

  // ---------------------------------------------------------------- The WHERE clauses mean this

  lemma UserClauses(db: Database, r: Ref, user: string)
    requires r in db
    ensures Matches(db, db[r], BY_USER, user) <==> Says(db, r, UserId, user)
    ensures Matches(db, db[r], BY_OWNER, user) <==> Says(db, r, OwnerUserId, user)
    ensures Matches(db, db[r], IsUser(ActingUserId), user) <==> Says(db, r, ActingUserId, user)
    ensures Matches(db, db[r], IsUser(CreatedByUserId), user) <==> Says(db, r, CreatedByUserId, user)
    ensures Matches(db, db[r], USER_VAULT, user) <==> Says(db, r, TenantKind, "user") && Says(db, r, TenantId, user)
  {
  }

  lemma JoinMeans(db: Database, r: Ref, col: Column, parent: Table, inner: Selector, user: string)
    requires r in db
    ensures Matches(db, db[r], In(col, parent, inner), user)
            <==> col in db[r] && Ref(parent, db[r][col]) in db && Matches(db, db[Ref(parent, db[r][col])], inner, user)
  {
  }

  lemma NameMeans(db: Database, r: Ref, col: Column, parent: Table, owner: Column, user: string)
    requires r in db
    ensures Matches(db, db[r], In(col, parent, IsUser(owner)), user) <==> Names(db, r, col, parent, owner, user)
  {
    JoinMeans(db, r, col, parent, IsUser(owner), user);
  }

  lemma UnderMeans(db: Database, r: Ref, col: Column, parent: Table, user: string)
    requires r in db
    ensures Matches(db, db[r], In(col, parent, BY_CHAT), user) <==> Under(db, r, col, parent, user)
  {
    JoinMeans(db, r, col, parent, BY_CHAT, user);
    if col in db[r] && Ref(parent, db[r][col]) in db {
      NameMeans(db, Ref(parent, db[r][col]), ChatId, Chats, UserId, user);
    }
    hide Matches;
  }

  lemma ChatClauses(db: Database, r: Ref, user: string)
    requires r in db
    ensures Matches(db, db[r], BY_CHAT, user) <==> InChat(db, r, user)
    ensures Matches(db, db[r], BY_MESSAGE, user) <==> Under(db, r, MessageId, Messages, user)
    ensures Matches(db, db[r], BY_THREAD, user) <==> Under(db, r, ThreadId, Threads, user)
    ensures Matches(db, db[r], BY_WORKFLOW, user) <==> Under(db, r, WorkflowId, Workflows, user)
    ensures Matches(db, db[r], BY_TOOL_CALL, user) <==> Under(db, r, ToolCallId, ToolCalls, user)
    ensures Matches(db, db[r], In(ThreadId, Chats, BY_USER), user) <==> Names(db, r, ThreadId, Chats, UserId, user)
  {
    NameMeans(db, r, ChatId, Chats, UserId, user);
    NameMeans(db, r, ThreadId, Chats, UserId, user);
    UnderMeans(db, r, MessageId, Messages, user);
    UnderMeans(db, r, ThreadId, Threads, user);
    UnderMeans(db, r, WorkflowId, Workflows, user);
    UnderMeans(db, r, ToolCallId, ToolCalls, user);
    hide Matches, Under, Names;
  }

  lemma RunClauses(db: Database, r: Ref, user: string)
    requires r in db
    ensures Matches(db, db[r], BY_OWNED_RUN, user) <==> Names(db, r, WorkflowId, Workflows, OwnerUserId, user)
    ensures Matches(db, db[r], BY_SIGNALLED_RUN, user)
            <==> Names(db, r, TemporalWorkflowId, Workflows, OwnerUserId, user)
    ensures Matches(db, db[r], BY_PROCESS, user) <==> Names(db, r, ProcessId, BackgroundProcesses, UserId, user)
  {
    NameMeans(db, r, WorkflowId, Workflows, OwnerUserId, user);
    NameMeans(db, r, TemporalWorkflowId, Workflows, OwnerUserId, user);
    NameMeans(db, r, ProcessId, BackgroundProcesses, UserId, user);
    hide Matches, Names;
  }

  lemma ProjectClauses(db: Database, r: Ref, user: string)
    requires r in db
    ensures Matches(db, db[r], BY_PROJECT, user) <==> InProject(db, r, user)
    ensures Matches(db, db[r], BY_TRIGGER, user) <==> OfTrigger(db, r, user)
    ensures Matches(db, db[r], In(TriggerId, Triggers, BY_USER), user)
            <==> Names(db, r, TriggerId, Triggers, UserId, user)
    ensures Matches(db, db[r], BY_ACCOUNT, user) <==> Names(db, r, AccountId, ProviderAccounts, UserId, user)
    ensures Matches(db, db[r], BY_CONNECTION, user) <==> Names(db, r, ConnectionId, Connections, UserId, user)
  {
    NameMeans(db, r, ProjectId, Projects, UserId, user);
    NameMeans(db, r, TriggerId, Triggers, UserId, user);
    NameMeans(db, r, AccountId, ProviderAccounts, UserId, user);
    NameMeans(db, r, ConnectionId, Connections, UserId, user);
    JoinMeans(db, r, TriggerId, Triggers, BY_PROJECT, user);
    if TriggerId in db[r] && Ref(Triggers, db[r][TriggerId]) in db {
      NameMeans(db, Ref(Triggers, db[r][TriggerId]), ProjectId, Projects, UserId, user);
    }
    hide Matches, Names;
  }

  lemma CounterClauses(db: Database, r: Ref, user: string)
    requires r in db
    ensures Matches(db, db[r], USER_COUNTER, user) <==> Says(db, r, StreamKind, "user") && Says(db, r, StreamId, user)
    ensures Matches(db, db[r], CHAT_COUNTER, user)
            <==> Says(db, r, StreamKind, "chat") && Names(db, r, StreamId, Chats, UserId, user)
  {
    NameMeans(db, r, StreamId, Chats, UserId, user);
  }

  /** Which clauses find a row, and which make it somebody's. */
  lemma FoundByClauses(db: Database, r: Ref, user: string)
    requires r in db
    ensures Found(db, user, r)
            <==> && !r.table.TriggerEvents?
                 && (|| Matches(db, db[r], Way(r.table), user)
                     || (r.table.ToolCallResults? && Matches(db, db[r], BY_TOOL_CALL, user))
                     || (r.table.UpdateStreamCounters? && Matches(db, db[r], CHAT_COUNTER, user)))
  {
    hide Matches, Way;
  }

  lemma ProjectCarriedFound(db: Database, r: Ref, user: string)
    requires r in db && IsCarried(r.table) && ProjectDependent(r.table)
    ensures Found(db, user, r) <==> Selects(db, r, user) || Follows(db, r, user)
  {
    hide Found, Matches, Says, Names, InChat, InProject, Under, OfTrigger;
    FoundByClauses(db, r, user);
    UserClauses(db, r, user);
    ProjectClauses(db, r, user);
  }

  lemma OtherCarriedFound(db: Database, r: Ref, user: string)
    requires r in db && IsCarried(r.table) && !ProjectDependent(r.table)
    ensures Found(db, user, r) <==> Selects(db, r, user) || Follows(db, r, user)
  {
    hide Found, Matches, Says, Names, InChat, InProject, Under, OfTrigger;
    FoundByClauses(db, r, user);
    UserClauses(db, r, user);
    ChatClauses(db, r, user);
    ProjectClauses(db, r, user);
  }

  lemma TranscriptFound(db: Database, r: Ref, user: string)
    requires r in db && IsTranscript(r.table)
    ensures Found(db, user, r) <==> Selects(db, r, user) || Follows(db, r, user)
  {
    hide Found, Matches, Says, Names, InChat, InProject, Under, OfTrigger;
    FoundByClauses(db, r, user);
    UserClauses(db, r, user);
    ChatClauses(db, r, user);
    RunClauses(db, r, user);
    ProjectClauses(db, r, user);
    CounterClauses(db, r, user);
  }

  lemma WorkflowFound(db: Database, r: Ref, user: string)
    requires r in db && IsWorkflow(r.table)
    ensures Found(db, user, r) <==> Selects(db, r, user) || Follows(db, r, user)
  {
    hide Found, Matches, Says, Names, InChat, InProject, Under, OfTrigger;
    FoundByClauses(db, r, user);
    UserClauses(db, r, user);
    ChatClauses(db, r, user);
    RunClauses(db, r, user);
    ProjectClauses(db, r, user);
    CounterClauses(db, r, user);
  }

  lemma RootFound(db: Database, r: Ref, user: string)
    requires r in db && !IsCarried(r.table) && !IsTranscript(r.table) && !IsWorkflow(r.table)
    ensures Found(db, user, r) <==> Selects(db, r, user) || Follows(db, r, user)
  {
    hide Found, Matches, Says, Names, InChat, InProject, Under, OfTrigger;
    FoundByClauses(db, r, user);
    UserClauses(db, r, user);
    ChatClauses(db, r, user);
    RunClauses(db, r, user);
    ProjectClauses(db, r, user);
    CounterClauses(db, r, user);
  }

  lemma FoundInColumns(db: Database, r: Ref, user: string)
    requires r in db
    ensures Found(db, user, r) <==> Selects(db, r, user) || Follows(db, r, user)
  {
    hide Found, Selects, Follows, Belongs, IsCarried, IsTranscript, IsWorkflow,
         ProjectDependent;
    if IsCarried(r.table) && ProjectDependent(r.table) {
      ProjectCarriedFound(db, r, user);
    } else if IsCarried(r.table) {
      OtherCarriedFound(db, r, user);
    } else if IsTranscript(r.table) {
      TranscriptFound(db, r, user);
    } else if IsWorkflow(r.table) {
      WorkflowFound(db, r, user);
    } else {
      RootFound(db, r, user);
    }
  }

  lemma OwnedByClauses(db: Database, r: Ref, user: string)
    requires r in db
    ensures Owned(db, user, r)
            <==> || Matches(db, db[r], Owner(r.table), user)
                 || (r.table.UpdateStreamCounters? && Matches(db, db[r], CHAT_COUNTER, user))
                 || (r.table.Plans? && Matches(db, db[r], BY_PROJECT, user))
                 || (r.table.Plans? && Matches(db, db[r], In(ThreadId, Chats, BY_USER), user))
                 || (r.table.Workflows? && Matches(db, db[r], BY_OWNER, user))
                 || ((r.table.StepExecutions? || r.table.WorkflowCheckpoints? || r.table.Questions?)
                     && Matches(db, db[r], BY_OWNED_RUN, user))
                 || ((r.table.Approvals? || r.table.Questions?) && Matches(db, db[r], BY_SIGNALLED_RUN, user))
                 || (r.table.AccessTokens? && Matches(db, db[r], IsUser(CreatedByUserId), user))
  {
    hide Matches, Owner;
  }

  lemma ProjectCarriedOwned(db: Database, r: Ref, user: string)
    requires r in db && IsCarried(r.table) && ProjectDependent(r.table)
    ensures Owned(db, user, r) <==> Belongs(db, r, user)
  {
    hide Owned, Matches, Says, Names, InChat, InProject, Under, OfTrigger;
    OwnedByClauses(db, r, user);
    UserClauses(db, r, user);
    ProjectClauses(db, r, user);
  }

  lemma OtherCarriedOwned(db: Database, r: Ref, user: string)
    requires r in db && IsCarried(r.table) && !ProjectDependent(r.table)
    ensures Owned(db, user, r) <==> Belongs(db, r, user)
  {
    hide Owned, Matches, Says, Names, InChat, InProject, Under, OfTrigger;
    OwnedByClauses(db, r, user);
    UserClauses(db, r, user);
    ChatClauses(db, r, user);
    ProjectClauses(db, r, user);
  }

  lemma TranscriptOwned(db: Database, r: Ref, user: string)
    requires r in db && IsTranscript(r.table)
    ensures Owned(db, user, r) <==> Belongs(db, r, user)
  {
    hide Owned, Matches, Says, Names, InChat, InProject, Under, OfTrigger;
    OwnedByClauses(db, r, user);
    UserClauses(db, r, user);
    ChatClauses(db, r, user);
    RunClauses(db, r, user);
    ProjectClauses(db, r, user);
    CounterClauses(db, r, user);
  }

  lemma WorkflowOwned(db: Database, r: Ref, user: string)
    requires r in db && IsWorkflow(r.table)
    ensures Owned(db, user, r) <==> Belongs(db, r, user)
  {
    hide Owned, Matches, Says, Names, InChat, InProject, Under, OfTrigger;
    OwnedByClauses(db, r, user);
    UserClauses(db, r, user);
    ChatClauses(db, r, user);
    RunClauses(db, r, user);
    ProjectClauses(db, r, user);
    CounterClauses(db, r, user);
  }

  lemma RootOwned(db: Database, r: Ref, user: string)
    requires r in db && !IsCarried(r.table) && !IsTranscript(r.table) && !IsWorkflow(r.table)
    ensures Owned(db, user, r) <==> Belongs(db, r, user)
  {
    hide Owned, Matches, Says, Names, InChat, InProject, Under, OfTrigger;
    OwnedByClauses(db, r, user);
    UserClauses(db, r, user);
    ChatClauses(db, r, user);
    RunClauses(db, r, user);
    ProjectClauses(db, r, user);
    CounterClauses(db, r, user);
  }

  /** A row is a user's, for every statement about isolation and about what a purge leaves, when its columns say so. */
  lemma OwnedInColumns(db: Database, r: Ref, user: string)
    requires r in db
    ensures Owned(db, user, r) <==> Belongs(db, r, user)
  {
    hide Owned, Selects, Follows, Belongs, IsCarried, IsTranscript, IsWorkflow,
         ProjectDependent;
    if IsCarried(r.table) && ProjectDependent(r.table) {
      ProjectCarriedOwned(db, r, user);
    } else if IsCarried(r.table) {
      OtherCarriedOwned(db, r, user);
    } else if IsTranscript(r.table) {
      TranscriptOwned(db, r, user);
    } else if IsWorkflow(r.table) {
      WorkflowOwned(db, r, user);
    } else {
      RootOwned(db, r, user);
    }
  }

  // ---------------------------------------------------------------- On any database

  lemma SelectedIsNamed(t: Table, sel: Selector)
    requires Finds(t, sel) && !IsCarried(t)
    ensures sel == BY_TOOL_CALL ==> t.ToolCallResults?
    ensures IsTranscript(t) || IsWorkflow(t) || IsRoot(t) || IsStandalone(t) || IsCredential(t)
  {
    TablesCovered(t, sel);
    if sel == BY_TOOL_CALL {
      OnlyResultsGoWithCalls(t);
    }
    hide Finds, IsCarried, IsTranscript, IsWorkflow, IsRoot, IsStandalone, IsCredential;
  }

  lemma SelectedIsNotCarried(db: Database, r: Ref, user: string)
    requires r in db && Selects(db, r, user)
    ensures !IsCarried(r.table)
  {
  }

  lemma ResultsAreFoundByMessage()
    ensures Finds(ToolCallResults, BY_MESSAGE) && BY_MESSAGE != BY_TOOL_CALL
  {
  }

  /** The step that selects a row. */
  lemma SelectingStep(db: Database, r: Ref, user: string) returns (j: nat)
    requires r in db && Selects(db, r, user)
    ensures j < |PURGE_STEPS| && PURGE_STEPS[j].statement.DeleteFrom? && PURGE_STEPS[j].statement.table == r.table
    ensures Matches(db, db[r], PURGE_STEPS[j].statement.where, user)
  {
    SelectedIsNotCarried(db, r, user);
    FoundInColumns(db, r, user);
    ResultsAreFoundByMessage();
    ChatClauses(db, r, user);
    var sel := BY_MESSAGE;
    assert r.table.ToolCallResults? ==> Matches(db, db[r], BY_MESSAGE, user);
    hide PURGE_STEPS, Finds, Matches, Selects, Follows, IsCarried, Under, InChat, Names, BY_MESSAGE, BY_TOOL_CALL;
    if !r.table.ToolCallResults? {
      sel := HowFound(db, user, r);
    }
    SelectedIsNamed(r.table, sel);
    hide IsTranscript, IsWorkflow, IsRoot, IsStandalone, IsCredential;
    j := StepReached(r.table, sel);
  }

  /** Whatever the database and whoever owns what: a purge that goes through leaves no row that one of its statements
      names. */
  lemma SelectedRowsGo(db: Database, user: string, r: Ref)
    requires r in db && Selects(db, r, user) && Run(db, PURGE_STEPS, user).Some?
    ensures r !in Run(db, PURGE_STEPS, user).value.db
  {
    PurgeOrderIsSafe();
    var j := SelectingStep(db, r, user);
    FinishedStepsAreDone(db, user, PURGE_STEPS, |PURGE_STEPS|);
    hide PURGE_STEPS, OrderSafe, Selects, Matches, Shrunk;
    assert StepDone(db, Run(db, PURGE_STEPS, user).value.db, user, PURGE_STEPS[j].statement);
    assert Selected(db, user, PURGE_STEPS[j].statement.table, PURGE_STEPS[j].statement.where, r);
  }

  /** The key by which a row follows. */
  function CarryingKey(t: Table): ForeignKey {
    match t
    case ToolCallResults => IntoToolCalls(ResultsToolCall)
    case _ => FoundThrough(t, BY_USER)
  }

  lemma FollowersHoldTheirKey(db: Database, r: Ref, user: string)
    requires r in db && Follows(db, r, user)
    ensures var key := KeyOf(CarryingKey(r.table));
            key.child == r.table && key.action == Cascade && key.column in db[r]
  {
  }

  lemma FollowersAreCarried(db: Database, r: Ref, user: string)
    requires r in db && Uncarried(db, r)
    ensures !Follows(db, r, user)
  {
    hide Follows, CarryingKey;
    if Follows(db, r, user) {
      FollowersHoldTheirKey(db, r, user);
    }
  }

  /** A row that no cascade can take goes exactly when a statement names it. */
  lemma UncarriedRowsGoExactly(db: Database, user: string, r: Ref)
    requires r in db && Uncarried(db, r) && Run(db, PURGE_STEPS, user).Some?
    ensures r in Run(db, PURGE_STEPS, user).value.db <==> !Selects(db, r, user)
  {
    hide PURGE_STEPS, Selects, OrderSafe, Uncarried;
    if Selects(db, r, user) {
      SelectedRowsGo(db, user, r);
    } else {
      PurgeOrderIsSafe();
      FoundInColumns(db, r, user);
      FollowersAreCarried(db, r, user);
      UnfoundIsUnselected(db, PURGE_STEPS, user, r);
      hide Found, Follows, Unselected;
      UnselectedStays(db, PURGE_STEPS, |PURGE_STEPS|, user, r);
    }
  }

  lemma KindsAreUncarried(db: Database, r: Ref)
    requires r in db && (r.table.VaultKeys? || r.table.UpdateStreamCounters?)
    ensures Uncarried(db, r)
  {
  }

  lemma KindsSelect(db: Database, r: Ref, user: string)
    requires r in db && (r.table.VaultKeys? || r.table.UpdateStreamCounters?)
    ensures r.table.VaultKeys? ==>
              (Selects(db, r, user) <==> && TenantKind in db[r] && db[r][TenantKind] == "user"
                                         && TenantId in db[r] && db[r][TenantId] == user)
    ensures r.table.UpdateStreamCounters? && StreamKind in db[r] && StreamId in db[r] ==>
              (Selects(db, r, user) <==> || (db[r][StreamKind] == "user" && db[r][StreamId] == user)
                                         || (db[r][StreamKind] == "chat" && CarriesUser(db, db[r][StreamId], user)))
  {
  }

  /** The chat of this id is there and carries the user's id. */
  predicate CarriesUser(db: Database, chatId: string, user: string) {
    var chat := Ref(Chats, chatId);
    chat in db && UserId in db[chat] && db[chat][UserId] == user
  }

  /** The wrapped data keys of the user, and no other tenant's, go with the account. */
  lemma VaultKeysGoExactly(db: Database, user: string, r: Ref)
    requires r in db && r.table.VaultKeys? && Run(db, PURGE_STEPS, user).Some?
    ensures r !in Run(db, PURGE_STEPS, user).value.db
            <==> && TenantKind in db[r] && db[r][TenantKind] == "user"
                 && TenantId in db[r] && db[r][TenantId] == user
  {
    hide PURGE_STEPS, Uncarried, Selects;
    KindsAreUncarried(db, r);
    KindsSelect(db, r, user);
    UncarriedRowsGoExactly(db, user, r);
  }

  /** Of the stream counters, the user's own and those of chats that carry the user's id. */
  lemma CountersGoExactly(db: Database, user: string, r: Ref)
    requires r in db && r.table.UpdateStreamCounters? && Run(db, PURGE_STEPS, user).Some?
    requires StreamKind in db[r] && StreamId in db[r]
    ensures r !in Run(db, PURGE_STEPS, user).value.db
            <==> || (db[r][StreamKind] == "user" && db[r][StreamId] == user)
                 || (db[r][StreamKind] == "chat" && CarriesUser(db, db[r][StreamId], user))
  {
    hide PURGE_STEPS, Uncarried, Selects, CarriesUser;
    KindsAreUncarried(db, r);
    KindsSelect(db, r, user);
    UncarriedRowsGoExactly(db, user, r);
  }

  // ---------------------------------------------------------------- Exactly one user

  /** No row that belongs to the user is referred to by one that does not. */
  ghost predicate Apart(db: Database, user: string) {
    forall fk, c, p :: Refers(db, fk, c, p) && p in db && Belongs(db, p, user) ==> Belongs(db, c, user)
  }

  lemma ApartIsIsolated(db: Database, user: string)
    ensures Apart(db, user) <==> Isolated(db, user)
  {
    hide Owned, Belongs, Refers;
    forall r | r in db ensures Owned(db, user, r) <==> Belongs(db, r, user) {
      OwnedInColumns(db, r, user);
    }
    assert forall fk, c, p | Refers(db, fk, c, p) :: c in db by {
      ReferrersExist(db);
    }
    assert forall r | Owned(db, user, r) :: r in db by {
      OwnedExist(db, user);
    }
  }

  lemma ReferrersExist(db: Database)
    ensures forall fk, c, p | Refers(db, fk, c, p) :: c in db
  {
  }

  lemma OwnedExist(db: Database, user: string)
    ensures forall r | Owned(db, user, r) :: r in db
  {
    hide Matches, Owns;
  }

  /** The purge of a user nobody else's rows refer to goes through and removes the rows its statements name and those
      that follow them, each of them the user's, and leaves every row of anyone else as it was. */
  lemma PurgeRemovesExactly(db: Database, user: string, r: Ref)
    requires Consistent(db) && Apart(db, user) && r in db
    ensures Run(db, PURGE_STEPS, user).Some?
    ensures var after := Run(db, PURGE_STEPS, user).value.db;
            && (r in after <==> !Selects(db, r, user) && !Follows(db, r, user))
            && (!Belongs(db, r, user) ==> r in after && after[r] == db[r])
  {
    ApartIsIsolated(db, user);
    IsolatedPurgeRemovesWhatItFinds(db, user);
    FoundInColumns(db, r, user);
    OwnedInColumns(db, r, user);
    hide PURGE_STEPS, Selects, Follows, Belongs, Found, Owned, Apart, Isolated;
  }

  /** Nothing that belongs to the user is left outside the trigger history, and all else is as it was. */
  ghost predicate LeavesOnlyOthers(db: Database, after: Database, user: string) {
    forall r | r in db ::
      && (Belongs(db, r, user) && !r.table.TriggerEvents? ==> r !in after)
      && (!Belongs(db, r, user) ==> r in after && after[r] == db[r])
  }

  /** The claim of the purge, with whose a row is and what the statements name told from the columns alone. */
  lemma PurgeErasesWhatBelongs(db: Database, user: string)
    requires Consistent(db)
    ensures Run(db, PURGE_STEPS, user).Some? && LeavesOnlyOthers(db, Run(db, PURGE_STEPS, user).value.db, user)
            <==> && Apart(db, user)
                 && (forall r | r in db && Belongs(db, r, user) && !r.table.TriggerEvents? ::
                       Selects(db, r, user) || Follows(db, r, user))
  {
    hide PURGE_STEPS, Selects, Follows, Belongs, Apart, Isolated, Owned;
    ApartIsIsolated(db, user);
    forall r | r in db ensures Owned(db, user, r) <==> Belongs(db, r, user) {
      OwnedInColumns(db, r, user);
    }
    OwnedExist(db, user);
    if Run(db, PURGE_STEPS, user).Some? && LeavesOnlyOthers(db, Run(db, PURGE_STEPS, user).value.db, user) {
      ErasingExactlyNeedsIsolation(db, user);
    }
    if Apart(db, user) {
      forall r | r in db
        ensures Run(db, PURGE_STEPS, user).Some?
        ensures r in Run(db, PURGE_STEPS, user).value.db <==> !Selects(db, r, user) && !Follows(db, r, user)
        ensures !Belongs(db, r, user) ==>
                  r in Run(db, PURGE_STEPS, user).value.db && Run(db, PURGE_STEPS, user).value.db[r] == db[r]
      {
        PurgeRemovesExactly(db, user, r);
      }
      IsolatedPurgeRemovesWhatItFinds(db, user);
    }
  }
}
