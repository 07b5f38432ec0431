/** The part of the chat database that account deletion touches: its tables, the columns that
    own or reference rows, and the foreign keys between them as the migrations declare them. */
module Schema {

  datatype Table =
    // Chats and what hangs off them.
    | Chats | Threads | Messages | MessageContentBlocks | ToolCalls | ToolCallResults
    | Approvals | ContextWindows | AgentMessages | RunEvents | ChatSelections
    | Questions | ChatUpdates | UserUpdates | UpdateStreamCounters
    // Workflow runs and background processes.
    | Workflows | StepExecutions | WorkflowCheckpoints | HostedHttpActionTickets
    | BackgroundProcesses | BackgroundProcessOutput
    // Projects.
    | Projects | Plans | ProjectConfigs | ProjectDaemons | Repos | Worktrees
    | ProjectMachineCatalogs | WorkflowCatalogSnapshots
    | Triggers | TriggerRegistrations | TriggerChanges | TriggerEvents
    // Machines, connectors and credentials.
    | Daemons | ConnectorGrants | ConnectorClientBindings | AccessTokens
    | ProviderAccounts | ProviderAccountLimits | ThreadProviderAccounts
    | Connections | ConnectionSecrets | VaultKeys
    // Tables with a user_id and no foreign key in either direction.
    | Plain(kind: PlainTable)

  datatype PlainTable =
    | ConnectorAuditLog | DaemonAttachment | WorkflowScenarios | WorkflowDrafts | Presets
    | VisibilityOverrides | CommandFavorites | Settings | Attachments
    | LlmCallUsage | LlmCallUsageDaily | UserAppSessions
    | ClaudeAuthTokens | CodexAuthTokens | CopilotAuthTokens | AntigravityAuthTokens | ApiKeys
    | OauthFlows | ConnectionEvents

  /** Only the columns that own a row or point at another one; the payload columns play no part. */
  datatype Column =
    | UserId | ActingUserId | CreatedByUserId | OwnerUserId | TenantKind | TenantId | StreamKind | StreamId
    | ChatId | ThreadId | FromThreadId | ToThreadId | MessageId | DeliveredMessageId
    | ForkAtMessageId | ToolCallId | WorkflowId | TemporalWorkflowId | ProcessId | ProjectId | WorktreeId
    | DaemonId | GrantId | ConnectionId | VaultKeyId | AccountId | TriggerId

  /** ON DELETE behaviour. A key declared with no clause at all is NoAction. */
  datatype Action = Cascade | SetNull | Restrict | NoAction

  /** Every foreign key whose referenced table account deletion removes rows from, by that table. */
  datatype ForeignKey =
    | IntoChats(chatKey: ChatKey)
    | IntoThreads(threadKey: ThreadKey)
    | IntoMessages(messageKey: MessageKey)
    | IntoToolCalls(toolCallKey: ToolCallKey)
    | IntoProjects(projectKey: ProjectKey)
    | IntoWorkspace(workspaceKey: WorkspaceKey)
    | IntoCredentials(credentialKey: CredentialKey)

  datatype ChatKey =
    | ThreadsChat | MessagesChat | ToolCallsChat | AgentMessagesChat | RunEventsChat
    | ChatSelectionsChat | UserUpdatesChat | ProcessesChat | TriggerEventsChat

  datatype ThreadKey =
    | ApprovalsThread | MessagesThread | ToolCallsThread | ContextWindowsThread | AgentMessagesFrom
    | AgentMessagesTo | ThreadAccountsThread

  datatype MessageKey =
    | ContextWindowsFork | ThreadsFork | BlocksMessage | ToolCallsMessage | ResultsMessage
    | AgentMessagesDelivered

  datatype ToolCallKey =
    | ResultsToolCall

  datatype ProjectKey =
    | ChatsProject | PlansProject | ConfigsProject | ProjectDaemonsProject | ReposProject
    | WorktreesProject | CatalogsProject | SnapshotsProject | TriggersProject | UserUpdatesProject
    | ProcessesProject

  datatype WorkspaceKey =
    | TicketsWorkflow | OutputProcess | UserUpdatesWorktree | RegistrationsTrigger | ChangesTrigger
    | ThreadsWorktree | ProcessesWorktree | TriggersWorktree | TriggerEventsTrigger

  datatype CredentialKey =
    | SecretsVaultKey | BindingsGrant | GrantsDaemon | CatalogsDaemon | LimitsAccount
    | ThreadAccountsAccount | SecretsConnection | TriggersConnection

  datatype Key = Key(child: Table, column: Column, parent: Table, action: Action)

  function KeyOf(fk: ForeignKey): Key {
    match fk
    case IntoChats(k) => ChatKeyOf(k)
    case IntoThreads(k) => ThreadKeyOf(k)
    case IntoMessages(k) => MessageKeyOf(k)
    case IntoToolCalls(k) => ToolCallKeyOf(k)
    case IntoProjects(k) => ProjectKeyOf(k)
    case IntoWorkspace(k) => WorkspaceKeyOf(k)
    case IntoCredentials(k) => CredentialKeyOf(k)
  }

  function ChatKeyOf(k: ChatKey): Key {
    match k
    case ThreadsChat => Key(Threads, ChatId, Chats, Cascade)
    case MessagesChat => Key(Messages, ChatId, Chats, Cascade)
    case ToolCallsChat => Key(ToolCalls, ChatId, Chats, Cascade)
    case AgentMessagesChat => Key(AgentMessages, ChatId, Chats, Cascade)
    case RunEventsChat => Key(RunEvents, ChatId, Chats, Cascade)
    case ChatSelectionsChat => Key(ChatSelections, ChatId, Chats, Cascade)
    case UserUpdatesChat => Key(UserUpdates, ChatId, Chats, Cascade)
    case ProcessesChat => Key(BackgroundProcesses, ChatId, Chats, SetNull)
    case TriggerEventsChat => Key(TriggerEvents, ChatId, Chats, SetNull)
  }

  function ThreadKeyOf(k: ThreadKey): Key {
    match k
    case ApprovalsThread => Key(Approvals, ThreadId, Threads, Restrict)
    case MessagesThread => Key(Messages, ThreadId, Threads, Restrict)
    case ToolCallsThread => Key(ToolCalls, ThreadId, Threads, Restrict)
    case ContextWindowsThread => Key(ContextWindows, ThreadId, Threads, Cascade)
    case AgentMessagesFrom => Key(AgentMessages, FromThreadId, Threads, Cascade)
    case AgentMessagesTo => Key(AgentMessages, ToThreadId, Threads, Cascade)
    case ThreadAccountsThread => Key(ThreadProviderAccounts, ThreadId, Threads, Cascade)
  }

  function MessageKeyOf(k: MessageKey): Key {
    match k
    case ContextWindowsFork => Key(ContextWindows, ForkAtMessageId, Messages, Restrict)
    case ThreadsFork => Key(Threads, ForkAtMessageId, Messages, Restrict)
    case BlocksMessage => Key(MessageContentBlocks, MessageId, Messages, Cascade)
    case ToolCallsMessage => Key(ToolCalls, MessageId, Messages, Cascade)
    case ResultsMessage => Key(ToolCallResults, MessageId, Messages, Cascade)
    case AgentMessagesDelivered => Key(AgentMessages, DeliveredMessageId, Messages, SetNull)
  }

  function ToolCallKeyOf(k: ToolCallKey): Key {
    match k
    case ResultsToolCall => Key(ToolCallResults, ToolCallId, ToolCalls, Cascade)
  }

  function ProjectKeyOf(k: ProjectKey): Key {
    match k
    case ChatsProject => Key(Chats, ProjectId, Projects, Cascade)
    case PlansProject => Key(Plans, ProjectId, Projects, Cascade)
    case ConfigsProject => Key(ProjectConfigs, ProjectId, Projects, Cascade)
    case ProjectDaemonsProject => Key(ProjectDaemons, ProjectId, Projects, Cascade)
    case ReposProject => Key(Repos, ProjectId, Projects, Cascade)
    case WorktreesProject => Key(Worktrees, ProjectId, Projects, Cascade)
    case CatalogsProject => Key(ProjectMachineCatalogs, ProjectId, Projects, Cascade)
    case SnapshotsProject => Key(WorkflowCatalogSnapshots, ProjectId, Projects, Cascade)
    case TriggersProject => Key(Triggers, ProjectId, Projects, Cascade)
    case UserUpdatesProject => Key(UserUpdates, ProjectId, Projects, Cascade)
    case ProcessesProject => Key(BackgroundProcesses, ProjectId, Projects, SetNull)
  }

  function WorkspaceKeyOf(k: WorkspaceKey): Key {
    match k
    case TicketsWorkflow => Key(HostedHttpActionTickets, WorkflowId, Workflows, Cascade)
    case OutputProcess => Key(BackgroundProcessOutput, ProcessId, BackgroundProcesses, Cascade)
    case UserUpdatesWorktree => Key(UserUpdates, WorktreeId, Worktrees, Cascade)
    case RegistrationsTrigger => Key(TriggerRegistrations, TriggerId, Triggers, Cascade)
    case ChangesTrigger => Key(TriggerChanges, TriggerId, Triggers, Cascade)
    case ThreadsWorktree => Key(Threads, WorktreeId, Worktrees, SetNull)
    case ProcessesWorktree => Key(BackgroundProcesses, WorktreeId, Worktrees, SetNull)
    case TriggersWorktree => Key(Triggers, WorktreeId, Worktrees, SetNull)
    case TriggerEventsTrigger => Key(TriggerEvents, TriggerId, Triggers, SetNull)
  }

  function CredentialKeyOf(k: CredentialKey): Key {
    match k
    case SecretsVaultKey => Key(ConnectionSecrets, VaultKeyId, VaultKeys, NoAction)
    case BindingsGrant => Key(ConnectorClientBindings, GrantId, ConnectorGrants, Cascade)
    case GrantsDaemon => Key(ConnectorGrants, DaemonId, Daemons, Cascade)
    case CatalogsDaemon => Key(ProjectMachineCatalogs, DaemonId, Daemons, Cascade)
    case LimitsAccount => Key(ProviderAccountLimits, AccountId, ProviderAccounts, Cascade)
    case ThreadAccountsAccount => Key(ThreadProviderAccounts, AccountId, ProviderAccounts, Cascade)
    case SecretsConnection => Key(ConnectionSecrets, ConnectionId, Connections, Cascade)
    case TriggersConnection => Key(Triggers, ConnectionId, Connections, SetNull)
  }

  /** Tables from which deleting a row of `root` can cascade, `root` included. */
  predicate Reaches(root: Table, t: Table) {
    t == root
    || match root
       case Messages => (t.MessageContentBlocks? || t.ToolCalls? || t.ToolCallResults?)
       case ToolCalls => t == ToolCallResults
       case Threads => (t.ContextWindows? || t.AgentMessages? || t.ThreadProviderAccounts?)
       case Chats => ChatDependent(t)
       case Workflows => t == HostedHttpActionTickets
       case BackgroundProcesses => t == BackgroundProcessOutput
       case Worktrees => t == UserUpdates
       case Projects => ProjectDependent(t) || ChatDependent(t)
       case Triggers => (t.TriggerRegistrations? || t.TriggerChanges?)
       case ConnectorGrants => t == ConnectorClientBindings
       case Daemons => (t.ConnectorGrants? || t.ConnectorClientBindings? || t.ProjectMachineCatalogs?)
       case ProviderAccounts => (t.ProviderAccountLimits? || t.ThreadProviderAccounts?)
       case Connections => t == ConnectionSecrets
       case _ => false
  }

  predicate ChatDependent(t: Table) {
    || t.Threads? || t.Messages? || t.MessageContentBlocks? || t.ToolCalls? || t.ToolCallResults?
    || t.ContextWindows? || t.AgentMessages? || t.RunEvents? || t.ChatSelections? || t.UserUpdates?
    || t.ThreadProviderAccounts?
  }

  predicate ProjectDependent(t: Table) {
    || t.Chats? || t.Plans? || t.ProjectConfigs? || t.ProjectDaemons? || t.Repos? || t.Worktrees?
    || t.ProjectMachineCatalogs? || t.WorkflowCatalogSnapshots? || t.Triggers? || t.TriggerRegistrations?
    || t.TriggerChanges? || t.UserUpdates?
  }

  lemma ChatsReachFollows(fk: ForeignKey)
    requires KeyOf(fk).action == Cascade && (KeyOf(fk).parent.Chats? || ChatDependent(KeyOf(fk).parent))
    ensures ChatDependent(KeyOf(fk).child)
  {
  }

  lemma ProjectsReachFollows(fk: ForeignKey)
    requires KeyOf(fk).action == Cascade && (KeyOf(fk).parent.Projects? || ProjectDependent(KeyOf(fk).parent))
    ensures ProjectDependent(KeyOf(fk).child) || ChatDependent(KeyOf(fk).child)
  {
  }

  lemma TranscriptReachFollows(root: Table, fk: ForeignKey)
    requires root.Messages? || root.ToolCalls? || root.Threads?
    requires KeyOf(fk).action == Cascade && Reaches(root, KeyOf(fk).parent)
    ensures Reaches(root, KeyOf(fk).child)
  {
  }

  lemma WorkspaceReachFollows(root: Table, fk: ForeignKey)
    requires root.Worktrees? || root.Triggers? || root.Workflows? || root.BackgroundProcesses?
    requires KeyOf(fk).action == Cascade && Reaches(root, KeyOf(fk).parent)
    ensures Reaches(root, KeyOf(fk).child)
  {
  }

  lemma CredentialReachFollows(root: Table, fk: ForeignKey)
    requires root.Daemons? || root.ConnectorGrants? || root.ProviderAccounts? || root.Connections?
    requires KeyOf(fk).action == Cascade && Reaches(root, KeyOf(fk).parent)
    ensures Reaches(root, KeyOf(fk).child)
  {
  }

  predicate HasDependents(t: Table) {
    || t.Chats? || t.Projects? || t.Messages? || t.ToolCalls? || t.Threads?
    || t.Worktrees? || t.Triggers? || t.Workflows? || t.BackgroundProcesses?
    || t.Daemons? || t.ConnectorGrants? || t.ProviderAccounts? || t.Connections?
  }

  lemma CascadesHaveDependents(fk: ForeignKey)
    requires KeyOf(fk).action == Cascade
    ensures HasDependents(KeyOf(fk).parent)
  {
  }

  /** `Reaches` is closed under the declared cascades, so it bounds every cascade. */
  lemma ReachesFollowsCascades(root: Table, fk: ForeignKey)
    requires KeyOf(fk).action == Cascade && Reaches(root, KeyOf(fk).parent)
    ensures Reaches(root, KeyOf(fk).child)
  {
    if root.Chats? {
      ChatsReachFollows(fk);
    } else if root.Projects? {
      if KeyOf(fk).parent.Projects? || ProjectDependent(KeyOf(fk).parent) {
        ProjectsReachFollows(fk);
      } else {
        ChatsReachFollows(fk);
      }
    } else if root.Messages? || root.ToolCalls? || root.Threads? {
      TranscriptReachFollows(root, fk);
    } else if root.Worktrees? || root.Triggers? || root.Workflows? || root.BackgroundProcesses? {
      WorkspaceReachFollows(root, fk);
    } else if HasDependents(root) {
      CredentialReachFollows(root, fk);
    } else {
      CascadesHaveDependents(fk);
    }
  }
}
