/** The ordered statements of the account purge, as data. */
module PurgePlan {
  import opened Schema
  import opened Sql
  import opened Wrappers

  datatype Step = Step(name: string, statement: Statement)

  const BY_USER := IsUser(UserId)
  const BY_CHAT := In(ChatId, Chats, BY_USER)
  const BY_MESSAGE := In(MessageId, Messages, BY_CHAT)
  const BY_THREAD := In(ThreadId, Threads, BY_CHAT)
  const BY_PROJECT := In(ProjectId, Projects, BY_USER)
  const BY_WORKFLOW := In(WorkflowId, Workflows, BY_CHAT)
  const BY_TOOL_CALL := In(ToolCallId, ToolCalls, BY_CHAT)
  const BY_TRIGGER := In(TriggerId, Triggers, BY_PROJECT)
  const BY_ACCOUNT := In(AccountId, ProviderAccounts, BY_USER)
  const BY_CONNECTION := In(ConnectionId, Connections, BY_USER)
  const BY_OWNER := IsUser(OwnerUserId)
  const BY_OWNED_RUN := In(WorkflowId, Workflows, BY_OWNER)
  const BY_SIGNALLED_RUN := In(TemporalWorkflowId, Workflows, BY_OWNER)
  const BY_PROCESS := In(ProcessId, BackgroundProcesses, BY_USER)
  const USER_COUNTER := Both(Equals(StreamKind, "user"), IsUser(StreamId))
  const CHAT_COUNTER := Both(Equals(StreamKind, "chat"), In(StreamId, Chats, BY_USER))
  const USER_VAULT := Both(Equals(TenantKind, "user"), IsUser(TenantId))

  /** Rows that restrict the deletion of messages and threads, then messages, then threads. */
  const TRANSCRIPT_STEPS: seq<Step> := [
    Step("message_content_blocks", DeleteFrom(MessageContentBlocks, BY_MESSAGE)),
    Step("tool_call_results", DeleteFrom(ToolCallResults, BY_MESSAGE)),
    Step("tool_calls", DeleteFrom(ToolCalls, BY_CHAT)),
    Step("approvals", DeleteFrom(Approvals, BY_THREAD)),
    Step("context_windows", DeleteFrom(ContextWindows, BY_THREAD)),
    Step("agent_messages", DeleteFrom(AgentMessages, BY_CHAT)),
    Step("threads_fork_pointers", ClearColumn(Threads, ForkAtMessageId, BY_CHAT)),
    Step("messages", DeleteFrom(Messages, BY_CHAT)),
    Step("threads", DeleteFrom(Threads, BY_CHAT))
  ]

  /** Workflow and chat-adjacent rows. */
  const WORKFLOW_STEPS: seq<Step> := [
    Step("step_executions", DeleteFrom(StepExecutions, BY_WORKFLOW)),
    Step("workflow_checkpoints", DeleteFrom(WorkflowCheckpoints, BY_CHAT)),
    Step("questions", DeleteFrom(Questions, BY_CHAT)),
    Step("chat_updates", DeleteFrom(ChatUpdates, BY_CHAT)),
    Step("background_process_output", DeleteFrom(BackgroundProcessOutput, BY_PROCESS)),
    Step("background_processes", DeleteFrom(BackgroundProcesses, BY_USER)),
    Step("workflows", DeleteFrom(Workflows, BY_CHAT)),
    Step("user_updates", DeleteFrom(UserUpdates, BY_USER)),
    Step("update_stream_counters_user", DeleteFrom(UpdateStreamCounters, USER_COUNTER)),
    Step("update_stream_counters_chats", DeleteFrom(UpdateStreamCounters, CHAT_COUNTER))
  ]

  /** The cascade roots. */
  const ROOT_STEPS: seq<Step> := [
    Step("chats", DeleteFrom(Chats, BY_USER)),
    Step("plans", DeleteFrom(Plans, BY_PROJECT)),
    Step("project_configs", DeleteFrom(ProjectConfigs, BY_PROJECT)),
    Step("project_daemons", DeleteFrom(ProjectDaemons, BY_PROJECT)),
    Step("repos", DeleteFrom(Repos, BY_PROJECT)),
    Step("worktrees", DeleteFrom(Worktrees, BY_PROJECT)),
    Step("projects", DeleteFrom(Projects, BY_USER))
  ]

  /** Standalone user-owned rows. */
  const STANDALONE_STEPS: seq<Step> := [
    Step("connector_client_bindings", DeleteFrom(ConnectorClientBindings, BY_USER)),
    Step("connector_grants", DeleteFrom(ConnectorGrants, BY_USER)),
    Step("connector_audit_log", DeleteFrom(Plain(ConnectorAuditLog), BY_USER)),
    Step("daemon_attachment", DeleteFrom(Plain(DaemonAttachment), BY_USER)),
    Step("access_tokens", DeleteFrom(AccessTokens, IsUser(ActingUserId))),
    Step("daemons", DeleteFrom(Daemons, BY_USER)),
    Step("workflow_scenarios", DeleteFrom(Plain(WorkflowScenarios), BY_USER)),
    Step("workflow_drafts", DeleteFrom(Plain(WorkflowDrafts), BY_USER)),
    Step("presets", DeleteFrom(Plain(Presets), BY_USER)),
    Step("visibility_overrides", DeleteFrom(Plain(VisibilityOverrides), BY_USER)),
    Step("command_favorites", DeleteFrom(Plain(CommandFavorites), BY_USER)),
    Step("settings", DeleteFrom(Plain(Settings), BY_USER)),
    Step("attachments", DeleteFrom(Plain(Attachments), BY_USER)),
    Step("llm_call_usage", DeleteFrom(Plain(LlmCallUsage), BY_USER)),
    Step("llm_call_usage_daily", DeleteFrom(Plain(LlmCallUsageDaily), BY_USER)),
    Step("user_app_sessions", DeleteFrom(Plain(UserAppSessions), BY_USER))
  ]

  /** Credentials, the wrapped data keys last of all. */
  const CREDENTIAL_STEPS: seq<Step> := [
    Step("claude_auth_tokens", DeleteFrom(Plain(ClaudeAuthTokens), BY_USER)),
    Step("codex_auth_tokens", DeleteFrom(Plain(CodexAuthTokens), BY_USER)),
    Step("copilot_auth_tokens", DeleteFrom(Plain(CopilotAuthTokens), BY_USER)),
    Step("antigravity_auth_tokens", DeleteFrom(Plain(AntigravityAuthTokens), BY_USER)),
    Step("api_keys", DeleteFrom(Plain(ApiKeys), BY_USER)),
    Step("provider_accounts", DeleteFrom(ProviderAccounts, BY_USER)),
    Step("oauth_flows", DeleteFrom(Plain(OauthFlows), BY_USER)),
    Step("connection_events", DeleteFrom(Plain(ConnectionEvents), BY_USER)),
    Step("connections", DeleteFrom(Connections, BY_USER)),
    Step("vault_keys", DeleteFrom(VaultKeys, USER_VAULT))
  ]

  const PURGE_STEPS: seq<Step> :=
    TRANSCRIPT_STEPS + WORKFLOW_STEPS + ROOT_STEPS + STANDALONE_STEPS + CREDENTIAL_STEPS

  /** The database and the running row total after some statements. */
  datatype Outcome = Outcome(db: Database, total: nat)

  /** The first `k` steps, stopping at the first one a foreign key refuses. */
  function RunFirst(db: Database, steps: seq<Step>, k: nat, user: string): Option<Outcome>
    requires k <= |steps|
  {
    if k == 0 then Some(Outcome(db, 0)) else
    match RunFirst(db, steps, k - 1, user)
    case None => None
    case Some(sofar) =>
      match Execute(sofar.db, steps[k - 1].statement, user)
      case None => None
      case Some(after) => Some(Outcome(after, sofar.total + |Touched(sofar.db, steps[k - 1].statement, user)|))
  }

  function Run(db: Database, steps: seq<Step>, user: string): Option<Outcome> {
    RunFirst(db, steps, |steps|, user)
  }
}
