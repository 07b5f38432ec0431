/** Whose row is it, and which of a user's rows the purge can find: two different questions. */
module Ownership {
  import opened Schema
  import opened Sql
  import opened PurgePlan

  /** What makes a row of a table a user's: the user id that every row of it carries, or else the link that every
      row of it must have. */
  function Owner(t: Table): Selector {
    match t
    case Threads | Messages | ToolCalls | AgentMessages | Approvals | Workflows | WorkflowCheckpoints | Questions
       | ChatUpdates => BY_CHAT
    case MessageContentBlocks => BY_MESSAGE
    case ToolCallResults => BY_TOOL_CALL
    case ContextWindows | ThreadProviderAccounts | Plans => BY_THREAD
    case StepExecutions => BY_WORKFLOW
    case BackgroundProcessOutput => BY_PROCESS
    case UpdateStreamCounters => USER_COUNTER
    case ProjectConfigs | ProjectDaemons | Repos | Worktrees | ProjectMachineCatalogs
       | WorkflowCatalogSnapshots => BY_PROJECT
    case TriggerRegistrations => In(TriggerId, Triggers, BY_USER)
    case ConnectionSecrets => BY_CONNECTION
    case HostedHttpActionTickets => BY_OWNER
    case AccessTokens => IsUser(ActingUserId)
    case VaultKeys => USER_VAULT
    case _ => BY_USER
  }

  /** A stream counter counts a user's stream or a chat's. A plan's thread can be given by the id of its chat, and a
      plan can also name a project. A run says itself who it belongs to, and what was recorded for a run is its
      owner's, also when the chat is gone. A token is its creator's as well as that of the user it acts for. */
  predicate Owns(t: Table, sel: Selector) {
    || sel == Owner(t)
    || (t.UpdateStreamCounters? && sel == CHAT_COUNTER)
    || (t.Plans? && (sel == BY_PROJECT || sel == In(ThreadId, Chats, BY_USER)))
    || (t.Workflows? && sel == BY_OWNER)
    || ((t.StepExecutions? || t.WorkflowCheckpoints? || t.Questions?) && sel == BY_OWNED_RUN)
    || ((t.Approvals? || t.Questions?) && sel == BY_SIGNALLED_RUN)
    || (t.AccessTokens? && sel == IsUser(CreatedByUserId))
  }

  /** How the purge finds the rows of a table: the WHERE clause of the step that deletes them, or the key they
      cascade by from a row it finds. */
  function Way(t: Table): Selector {
    match t
    case Approvals => BY_THREAD
    case ToolCallResults => BY_MESSAGE
    case RunEvents | ChatSelections => BY_CHAT
    case HostedHttpActionTickets => BY_WORKFLOW
    case Plans | Triggers => BY_PROJECT
    case TriggerRegistrations | TriggerChanges => BY_TRIGGER
    case ProviderAccountLimits => BY_ACCOUNT
    case _ => Owner(t)
  }

  /** Tool results are found by their message and go with their tool call; trigger history is not found at all. */
  predicate Finds(t: Table, sel: Selector) {
    && !t.TriggerEvents?
    && (|| sel == Way(t)
        || (t.ToolCallResults? && sel == BY_TOOL_CALL)
        || (t.UpdateStreamCounters? && sel == CHAT_COUNTER))
  }

  ghost predicate Owned(db: Database, user: string, r: Ref) {
    r in db && exists sel :: Owns(r.table, sel) && Matches(db, db[r], sel, user)
  }

  ghost predicate Found(db: Database, user: string, r: Ref) {
    r in db && exists sel :: Finds(r.table, sel) && Matches(db, db[r], sel, user)
  }

  /** No row of `user` is referred to by a row of anyone else. Postgres does not enforce this; it is
      the single-tenant discipline of the code that inserts rows. */
  ghost predicate Isolated(db: Database, user: string) {
    forall fk, c, p :: Refers(db, fk, c, p) && Owned(db, user, p) ==> Owned(db, user, c)
  }

  ghost predicate Linked(t: Table, col: Column, parent: Table) {
    exists fk :: KeyOf(fk).child == t && KeyOf(fk).column == col && KeyOf(fk).parent == parent
  }

  // ---------------------------------------------------------------- What is found is the user's

  /** The tables no step names: their rows go with the row they hang off. */
  predicate IsCarried(t: Table) {
    || t.RunEvents? || t.ChatSelections? || t.ThreadProviderAccounts? || t.HostedHttpActionTickets?
    || t.Triggers? || t.ProjectMachineCatalogs? || t.WorkflowCatalogSnapshots?
    || t.TriggerRegistrations? || t.TriggerChanges? || t.ProviderAccountLimits? || t.ConnectionSecrets?
  }

  /** The key by which such a row goes, or by which the purge finds a row that does not say whose it is. */
  function FoundThrough(t: Table, sel: Selector): ForeignKey {
    match t
    case Approvals => IntoThreads(ApprovalsThread)
    case ToolCallResults => if sel == BY_TOOL_CALL then IntoToolCalls(ResultsToolCall) else IntoMessages(ResultsMessage)
    case RunEvents => IntoChats(RunEventsChat)
    case ChatSelections => IntoChats(ChatSelectionsChat)
    case ThreadProviderAccounts => IntoThreads(ThreadAccountsThread)
    case HostedHttpActionTickets => IntoWorkspace(TicketsWorkflow)
    case Triggers => IntoProjects(TriggersProject)
    case ProjectMachineCatalogs => IntoProjects(CatalogsProject)
    case WorkflowCatalogSnapshots => IntoProjects(SnapshotsProject)
    case TriggerRegistrations => IntoWorkspace(RegistrationsTrigger)
    case TriggerChanges => IntoWorkspace(ChangesTrigger)
    case ProviderAccountLimits => IntoCredentials(LimitsAccount)
    case _ => IntoCredentials(SecretsConnection)
  }

  predicate ThroughKey(t: Table, sel: Selector) {
    && sel.In?
    && KeyOf(FoundThrough(t, sel)).child == t
    && KeyOf(FoundThrough(t, sel)).column == sel.column
    && KeyOf(FoundThrough(t, sel)).parent == sel.parent
    && Finds(sel.parent, sel.inner)
  }

  lemma TranscriptThroughKeys(t: Table, sel: Selector)
    requires t.Approvals? || t.ToolCallResults?
    requires Finds(t, sel)
    ensures ThroughKey(t, sel)
  {
  }

  lemma ChatThroughKeys(t: Table, sel: Selector)
    requires t.RunEvents? || t.ChatSelections?
    requires Finds(t, sel)
    ensures ThroughKey(t, sel)
  {
  }

  lemma RunThroughKeys(t: Table, sel: Selector)
    requires t.ThreadProviderAccounts? || t.HostedHttpActionTickets?
    requires Finds(t, sel)
    ensures ThroughKey(t, sel)
  {
  }

  lemma ProjectThroughKeys(t: Table, sel: Selector)
    requires t.Triggers? || t.ProjectMachineCatalogs? || t.WorkflowCatalogSnapshots?
    requires Finds(t, sel)
    ensures ThroughKey(t, sel)
  {
  }

  lemma TriggerThroughKeys(t: Table, sel: Selector)
    requires t.TriggerRegistrations? || t.TriggerChanges?
    requires Finds(t, sel)
    ensures ThroughKey(t, sel)
  {
  }

  lemma LimitsThroughKeys(sel: Selector)
    requires Finds(ProviderAccountLimits, sel)
    ensures ThroughKey(ProviderAccountLimits, sel)
  {
  }

  lemma SecretsThroughKeys(sel: Selector)
    requires Finds(ConnectionSecrets, sel)
    ensures ThroughKey(ConnectionSecrets, sel)
  {
  }

  lemma FoundThroughKeys(t: Table, sel: Selector)
    requires IsCarried(t) || t.Approvals? || t.ToolCallResults?
    requires Finds(t, sel)
    ensures ThroughKey(t, sel)
  {
    hide ThroughKey, Finds;
    if t.Approvals? || t.ToolCallResults? {
      TranscriptThroughKeys(t, sel);
    } else if t.RunEvents? || t.ChatSelections? {
      ChatThroughKeys(t, sel);
    } else if t.ThreadProviderAccounts? || t.HostedHttpActionTickets? {
      RunThroughKeys(t, sel);
    } else if t.Triggers? || t.ProjectMachineCatalogs? || t.WorkflowCatalogSnapshots? {
      ProjectThroughKeys(t, sel);
    } else if t.TriggerRegistrations? || t.TriggerChanges? {
      TriggerThroughKeys(t, sel);
    } else if t.ProviderAccountLimits? {
      LimitsThroughKeys(sel);
    } else {
      SecretsThroughKeys(sel);
    }
  }

  lemma FindsMoreThanOwns(t: Table, sel: Selector)
    requires Finds(t, sel) && !Owns(t, sel)
    ensures IsCarried(t) || t.Approvals? || t.ToolCallResults?
  {
  }

  /** Whatever the purge finds of an isolated user is that user's. */
  lemma {:induction false} FoundIsOwned(db: Database, user: string, r: Ref, sel: Selector)
    requires Isolated(db, user) && r in db
    requires Finds(r.table, sel) && Matches(db, db[r], sel, user)
    ensures Owned(db, user, r)
    decreases sel
  {
    if !Owns(r.table, sel) {
      FindsMoreThanOwns(r.table, sel);
      FoundThroughKeys(r.table, sel);
      var p := Ref(sel.parent, db[r][sel.column]);
      FoundIsOwned(db, user, p, sel.inner);
      assert Refers(db, FoundThrough(r.table, sel), r, p);
    }
  }

  // ---------------------------------------------------------------- Keys keep finding

  /** The tables whose rows the purge finds by what makes them the user's. */
  predicate SameWays(t: Table) {
    !t.Approvals? && !t.ToolCallResults? && !t.RunEvents? && !t.ChatSelections? && !t.HostedHttpActionTickets?
    && !t.Plans? && !t.Workflows? && !t.StepExecutions? && !t.WorkflowCheckpoints? && !t.Questions?
    && !t.AccessTokens? && !t.Triggers? && !t.TriggerRegistrations? && !t.TriggerChanges? && !t.ProviderAccountLimits?
    && !t.TriggerEvents?
  }

  lemma SameWaysFind(t: Table, sel: Selector)
    ensures SameWays(t) ==> (Finds(t, sel) <==> Owns(t, sel))
  {
  }

  /** The purge finds a row that refers by this key to a row it finds: by the key itself, or because the row's owner is
      all there is to finding it. */
  predicate LeadsOn(key: Key, inner: Selector) {
    Finds(key.child, In(key.column, key.parent, inner)) || SameWays(key.child)
  }

  lemma KeyLeadsOn(db: Database, user: string, key: Key, c: Ref, p: Ref, inner: Selector)
    requires c in db && c.table == key.child && key.column in db[c] && p == Ref(key.parent, db[c][key.column])
    requires p in db && Matches(db, db[p], inner, user) && Owned(db, user, c)
    requires LeadsOn(key, inner)
    ensures Found(db, user, c)
  {
    if SameWays(key.child) {
      var sel :| Owns(c.table, sel) && Matches(db, db[c], sel, user);
      SameWaysFind(c.table, sel);
    } else {
      assert Matches(db, db[c], In(key.column, key.parent, inner), user);
    }
  }

  lemma HowFound(db: Database, user: string, r: Ref) returns (sel: Selector)
    requires Found(db, user, r)
    ensures r in db && Finds(r.table, sel) && Matches(db, db[r], sel, user)
  {
    hide Finds;
    sel :| Finds(r.table, sel) && Matches(db, db[r], sel, user);
  }

  lemma ChatKeysKeepFinding(k: ChatKey, inner: Selector)
    requires ChatKeyOf(k).action != SetNull && Finds(ChatKeyOf(k).parent, inner)
    ensures LeadsOn(ChatKeyOf(k), inner)
  {
  }

  lemma ChatDependentIsFound(db: Database, user: string, k: ChatKey, c: Ref, p: Ref)
    requires ChatKeyOf(k).action != SetNull && Refers(db, IntoChats(k), c, p)
    requires Found(db, user, p) && Owned(db, user, c)
    ensures Found(db, user, c)
  {
    hide Way, Owner, SameWays, LeadsOn, Owned, Found, Matches;
    var inner := HowFound(db, user, p);
    ChatKeysKeepFinding(k, inner);
    KeyLeadsOn(db, user, ChatKeyOf(k), c, p, inner);
  }

  lemma ThreadKeysKeepFinding(k: ThreadKey, inner: Selector)
    requires ThreadKeyOf(k).action != SetNull && Finds(ThreadKeyOf(k).parent, inner)
    ensures LeadsOn(ThreadKeyOf(k), inner)
  {
  }

  lemma ThreadDependentIsFound(db: Database, user: string, k: ThreadKey, c: Ref, p: Ref)
    requires ThreadKeyOf(k).action != SetNull && Refers(db, IntoThreads(k), c, p)
    requires Found(db, user, p) && Owned(db, user, c)
    ensures Found(db, user, c)
  {
    hide Way, Owner, SameWays, LeadsOn, Owned, Found, Matches;
    var inner := HowFound(db, user, p);
    ThreadKeysKeepFinding(k, inner);
    KeyLeadsOn(db, user, ThreadKeyOf(k), c, p, inner);
  }

  lemma MessageKeysKeepFinding(k: MessageKey, inner: Selector)
    requires MessageKeyOf(k).action != SetNull && Finds(MessageKeyOf(k).parent, inner)
    ensures LeadsOn(MessageKeyOf(k), inner)
  {
  }

  lemma MessageDependentIsFound(db: Database, user: string, k: MessageKey, c: Ref, p: Ref)
    requires MessageKeyOf(k).action != SetNull && Refers(db, IntoMessages(k), c, p)
    requires Found(db, user, p) && Owned(db, user, c)
    ensures Found(db, user, c)
  {
    hide Way, Owner, SameWays, LeadsOn, Owned, Found, Matches;
    var inner := HowFound(db, user, p);
    MessageKeysKeepFinding(k, inner);
    KeyLeadsOn(db, user, MessageKeyOf(k), c, p, inner);
  }

  lemma ToolCallKeysKeepFinding(k: ToolCallKey, inner: Selector)
    requires ToolCallKeyOf(k).action != SetNull && Finds(ToolCallKeyOf(k).parent, inner)
    ensures LeadsOn(ToolCallKeyOf(k), inner)
  {
  }

  lemma ToolCallDependentIsFound(db: Database, user: string, k: ToolCallKey, c: Ref, p: Ref)
    requires ToolCallKeyOf(k).action != SetNull && Refers(db, IntoToolCalls(k), c, p)
    requires Found(db, user, p) && Owned(db, user, c)
    ensures Found(db, user, c)
  {
    hide Way, Owner, SameWays, LeadsOn, Owned, Found, Matches;
    var inner := HowFound(db, user, p);
    ToolCallKeysKeepFinding(k, inner);
    KeyLeadsOn(db, user, ToolCallKeyOf(k), c, p, inner);
  }

  lemma ProjectKeysKeepFinding(k: ProjectKey, inner: Selector)
    requires ProjectKeyOf(k).action != SetNull && Finds(ProjectKeyOf(k).parent, inner)
    ensures LeadsOn(ProjectKeyOf(k), inner)
  {
  }

  lemma ProjectDependentIsFound(db: Database, user: string, k: ProjectKey, c: Ref, p: Ref)
    requires ProjectKeyOf(k).action != SetNull && Refers(db, IntoProjects(k), c, p)
    requires Found(db, user, p) && Owned(db, user, c)
    ensures Found(db, user, c)
  {
    hide Way, Owner, SameWays, LeadsOn, Owned, Found, Matches;
    var inner := HowFound(db, user, p);
    ProjectKeysKeepFinding(k, inner);
    KeyLeadsOn(db, user, ProjectKeyOf(k), c, p, inner);
  }

  lemma WorkspaceKeysKeepFinding(k: WorkspaceKey, inner: Selector)
    requires WorkspaceKeyOf(k).action != SetNull && Finds(WorkspaceKeyOf(k).parent, inner)
    ensures LeadsOn(WorkspaceKeyOf(k), inner)
  {
  }

  lemma WorkspaceDependentIsFound(db: Database, user: string, k: WorkspaceKey, c: Ref, p: Ref)
    requires WorkspaceKeyOf(k).action != SetNull && Refers(db, IntoWorkspace(k), c, p)
    requires Found(db, user, p) && Owned(db, user, c)
    ensures Found(db, user, c)
  {
    hide Way, Owner, SameWays, LeadsOn, Owned, Found, Matches;
    var inner := HowFound(db, user, p);
    WorkspaceKeysKeepFinding(k, inner);
    KeyLeadsOn(db, user, WorkspaceKeyOf(k), c, p, inner);
  }

  lemma CredentialKeysKeepFinding(k: CredentialKey, inner: Selector)
    requires CredentialKeyOf(k).action != SetNull && Finds(CredentialKeyOf(k).parent, inner)
    ensures LeadsOn(CredentialKeyOf(k), inner)
  {
  }

  lemma CredentialDependentIsFound(db: Database, user: string, k: CredentialKey, c: Ref, p: Ref)
    requires CredentialKeyOf(k).action != SetNull && Refers(db, IntoCredentials(k), c, p)
    requires Found(db, user, p) && Owned(db, user, c)
    ensures Found(db, user, c)
  {
    hide Way, Owner, SameWays, LeadsOn, Owned, Found, Matches;
    var inner := HowFound(db, user, p);
    CredentialKeysKeepFinding(k, inner);
    KeyLeadsOn(db, user, CredentialKeyOf(k), c, p, inner);
  }

  /** A row that goes, or refuses to go, with a row the purge finds is found as well. */
  lemma DependentIsFound(db: Database, user: string, fk: ForeignKey, c: Ref, p: Ref)
    requires KeyOf(fk).action != SetNull && Refers(db, fk, c, p) && Found(db, user, p) && Owned(db, user, c)
    ensures Found(db, user, c)
  {
    hide Found, Owned, Refers;
    match fk
    case IntoChats(k) => ChatDependentIsFound(db, user, k, c, p);
    case IntoThreads(k) => ThreadDependentIsFound(db, user, k, c, p);
    case IntoMessages(k) => MessageDependentIsFound(db, user, k, c, p);
    case IntoToolCalls(k) => ToolCallDependentIsFound(db, user, k, c, p);
    case IntoProjects(k) => ProjectDependentIsFound(db, user, k, c, p);
    case IntoWorkspace(k) => WorkspaceDependentIsFound(db, user, k, c, p);
    case IntoCredentials(k) => CredentialDependentIsFound(db, user, k, c, p);
  }
}
