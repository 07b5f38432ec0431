/** The purge's own list meets the order condition. */
module PurgeSteps {
  import opened Schema
  import opened Sql
  import opened PurgePlan
  import opened Ownership
  import opened PurgeOrder

  lemma StepPositions()
    ensures |PURGE_STEPS| == 52
    ensures PURGE_STEPS[..9] == TRANSCRIPT_STEPS
    ensures PURGE_STEPS[9..19] == WORKFLOW_STEPS
    ensures PURGE_STEPS[19..26] == ROOT_STEPS
    ensures PURGE_STEPS[26..42] == STANDALONE_STEPS
    ensures PURGE_STEPS[42..] == CREDENTIAL_STEPS
  {
  }

  /** The first position at which a row of `t` may have been removed, for the tables other steps join through. */
  function FirstTouch(t: Table): nat {
    match t
    case Messages => 7
    case Threads => 8
    case BackgroundProcesses => 14
    case Workflows => 15
    case Chats => 19
    case Projects => 25
    case _ => 0
  }

  lemma TranscriptTouches(j: nat, t: Table)
    requires j < 9 && TRANSCRIPT_STEPS[j].statement.DeleteFrom?
    requires Reaches(TRANSCRIPT_STEPS[j].statement.table, t)
    ensures j >= FirstTouch(t)
  {
  }

  lemma WorkflowTouches(j: nat, t: Table)
    requires j < 10 && Reaches(WORKFLOW_STEPS[j].statement.table, t)
    ensures 9 + j >= FirstTouch(t)
  {
  }

  lemma RootTouches(j: nat, t: Table)
    requires j < 7 && Reaches(ROOT_STEPS[j].statement.table, t)
    ensures 19 + j >= FirstTouch(t)
  {
  }

  lemma UntouchedUntil(k: nat, t: Table)
    requires k <= FirstTouch(t)
    ensures k <= |PURGE_STEPS| && Untouched(PURGE_STEPS, k, t)
  {
    StepPositions();
    forall j | 0 <= j < k && PURGE_STEPS[j].statement.DeleteFrom?
      ensures !Reaches(PURGE_STEPS[j].statement.table, t)
    {
      if Reaches(PURGE_STEPS[j].statement.table, t) {
        if j < 9 {
          assert PURGE_STEPS[j] == PURGE_STEPS[..9][j];
          TranscriptTouches(j, t);
        } else if j < 19 {
          assert PURGE_STEPS[j] == PURGE_STEPS[9..19][j - 9];
          WorkflowTouches(j - 9, t);
        } else {
          assert PURGE_STEPS[j] == PURGE_STEPS[19..26][j - 19];
          RootTouches(j - 19, t);
        }
      }
    }
  }

  // ---------------------------------------------------------------- Readable WHERE clauses

  function Least(a: nat, b: nat): nat {
    if a < b then a else b
  }

  /** The first position at which a table the clause joins through may have lost rows. */
  function ReadLimit(sel: Selector): nat
    decreases sel
  {
    match sel
    case IsUser(_) => |PURGE_STEPS|
    case Equals(_, _) => |PURGE_STEPS|
    case In(_, p, inner) => Least(FirstTouch(p), ReadLimit(inner))
    case Both(left, right) => Least(ReadLimit(left), ReadLimit(right))
  }

  predicate ReadsFixedColumns(t: Table, sel: Selector)
    decreases sel
  {
    match sel
    case IsUser(c) => !Loose(t, c)
    case Equals(c, _) => !Loose(t, c)
    case In(c, p, inner) => !Loose(t, c) && ReadsFixedColumns(p, inner)
    case Both(left, right) => ReadsFixedColumns(t, left) && ReadsFixedColumns(t, right)
  }

  lemma {:induction false} ReadableUntil(k: nat, t: Table, sel: Selector)
    requires k <= |PURGE_STEPS| && k <= ReadLimit(sel) && ReadsFixedColumns(t, sel)
    ensures Readable(PURGE_STEPS, k, t, sel)
    decreases sel
  {
    match sel
    case IsUser(_) =>
    case Equals(_, _) =>
    case In(c, p, inner) =>
      UntouchedUntil(k, p);
      ReadableUntil(k, p, inner);
    case Both(left, right) =>
      ReadableUntil(k, t, left);
      ReadableUntil(k, t, right);
  }

  predicate HasLooseColumns(t: Table) {
    t.Threads? || t.AgentMessages? || t.BackgroundProcesses? || t.Triggers? || t.TriggerEvents?
  }

  lemma LooseColumnsAreFew(t: Table, col: Column)
    requires Loose(t, col)
    ensures HasLooseColumns(t)
  {
  }

  /** The purge never looks for rows of a table through a column of its own that it may clear. */
  lemma OwnColumnIsFixed(t: Table, sel: Selector)
    requires HasLooseColumns(t) && Finds(t, sel)
    ensures sel.IsUser? || sel.In?
    ensures !Loose(t, sel.column)
  {
  }

  predicate IsJoin(sel: Selector) {
    || sel == BY_CHAT || sel == BY_MESSAGE || sel == BY_TOOL_CALL || sel == BY_THREAD || sel == BY_PROJECT
    || sel == BY_WORKFLOW || sel == BY_PROCESS || sel == BY_CONNECTION || sel == BY_TRIGGER || sel == BY_ACCOUNT
  }

  predicate IsPair(sel: Selector) {
    sel == USER_COUNTER || sel == CHAT_COUNTER || sel == USER_VAULT
  }

  predicate IsUsual(sel: Selector) {
    IsJoin(sel) || IsPair(sel) || sel == BY_USER || sel == IsUser(ActingUserId)
  }

  /** The purge finds the rows of no table by what only some tables are owned by. */
  lemma OwnersAreUsual(t: Table)
    requires !t.TriggerRegistrations? && !t.HostedHttpActionTickets?
    ensures IsUsual(Owner(t))
  {
  }

  lemma WaysAreFew(t: Table, sel: Selector)
    requires Finds(t, sel)
    ensures IsUsual(sel)
  {
    if !t.TriggerRegistrations? && !t.HostedHttpActionTickets? {
      OwnersAreUsual(t);
    }
    hide Owner;
  }

  lemma JoinsAreFound(sel: Selector)
    requires IsJoin(sel)
    ensures sel.In? && Finds(sel.parent, sel.inner)
  {
  }

  lemma KindsAreFixed(t: Table)
    ensures !Loose(t, StreamKind) && !Loose(t, StreamId) && !Loose(t, TenantKind) && !Loose(t, TenantId)
    ensures !Loose(Chats, UserId)
  {
  }

  lemma PairsAreFixed(t: Table, sel: Selector)
    requires IsPair(sel)
    ensures sel.Both? && ReadsFixedColumns(t, sel)
  {
    KindsAreFixed(t);
    hide Loose;
  }

  /** Nor through such a column of a table it joins. */
  lemma {:induction false} FindingIsFixed(t: Table, sel: Selector)
    requires Finds(t, sel)
    ensures ReadsFixedColumns(t, sel)
    decreases sel
  {
    WaysAreFew(t, sel);
    if IsPair(sel) {
      PairsAreFixed(t, sel);
    } else {
      if IsJoin(sel) {
        JoinsAreFound(sel);
        FindingIsFixed(sel.parent, sel.inner);
      }
      if HasLooseColumns(t) {
        OwnColumnIsFixed(t, sel);
      } else if Loose(t, sel.column) {
        LooseColumnsAreFew(t, sel.column);
      }
      hide Finds, Loose, HasLooseColumns, IsJoin, IsPair;
    }
  }

  lemma ReadLimits()
    ensures |PURGE_STEPS| == 52
    ensures ReadLimit(BY_USER) == ReadLimit(IsUser(ActingUserId)) == 52
    ensures ReadLimit(USER_COUNTER) == ReadLimit(USER_VAULT) == 52
    ensures ReadLimit(BY_CHAT) == ReadLimit(CHAT_COUNTER) == 19
    ensures ReadLimit(BY_MESSAGE) == 7 && ReadLimit(BY_THREAD) == 8
    ensures ReadLimit(BY_WORKFLOW) == 15 && ReadLimit(BY_PROCESS) == 14 && ReadLimit(BY_PROJECT) == 25
  {
    StepPositions();
    hide PURGE_STEPS;
  }

  lemma TranscriptLooks(j: nat)
    requires j < |TRANSCRIPT_STEPS|
    ensures Finds(TRANSCRIPT_STEPS[j].statement.table, TRANSCRIPT_STEPS[j].statement.where)
    ensures TRANSCRIPT_STEPS[j].statement.ClearColumn? ==>
              TRANSCRIPT_STEPS[j].statement.table == Threads && TRANSCRIPT_STEPS[j].statement.column == ForkAtMessageId
  {
  }

  lemma WorkflowLooks(j: nat)
    requires j < |WORKFLOW_STEPS|
    ensures WORKFLOW_STEPS[j].statement.DeleteFrom?
    ensures Finds(WORKFLOW_STEPS[j].statement.table, WORKFLOW_STEPS[j].statement.where)
  {
  }

  lemma RootLooks(j: nat)
    requires j < |ROOT_STEPS|
    ensures ROOT_STEPS[j].statement.DeleteFrom?
    ensures Finds(ROOT_STEPS[j].statement.table, ROOT_STEPS[j].statement.where)
  {
  }

  predicate IsUserTable(t: Table) {
    t.Plain? || t.ConnectorClientBindings? || t.ConnectorGrants? || t.Daemons? || t.ProviderAccounts? || t.Connections?
  }

  lemma UserTableIsFoundByUser(t: Table)
    requires IsUserTable(t)
    ensures forall sel :: Finds(t, sel) <==> sel == BY_USER
  {
  }

  lemma OtherLooks()
    ensures forall sel :: Finds(AccessTokens, sel) <==> sel == IsUser(ActingUserId)
    ensures forall sel :: Finds(VaultKeys, sel) <==> sel == USER_VAULT
  {
  }

  lemma StandaloneLooks(j: nat)
    requires j < |STANDALONE_STEPS|
    ensures STANDALONE_STEPS[j].statement.DeleteFrom?
    ensures Finds(STANDALONE_STEPS[j].statement.table, STANDALONE_STEPS[j].statement.where)
    ensures STANDALONE_STEPS[j].statement.where.IsUser?
  {
    hide Way;
    OtherLooks();
    if j != 4 {
      UserTableIsFoundByUser(STANDALONE_STEPS[j].statement.table);
    }
  }

  lemma CredentialLooks(j: nat)
    requires j < |CREDENTIAL_STEPS|
    ensures CREDENTIAL_STEPS[j].statement.DeleteFrom?
    ensures Finds(CREDENTIAL_STEPS[j].statement.table, CREDENTIAL_STEPS[j].statement.where)
    ensures CREDENTIAL_STEPS[j].statement.where == BY_USER || CREDENTIAL_STEPS[j].statement.where == USER_VAULT
  {
    hide Way;
    OtherLooks();
    if j != 9 {
      UserTableIsFoundByUser(CREDENTIAL_STEPS[j].statement.table);
    }
  }

  lemma EarlyStepsInTime(k: nat)
    requires k < 26
    ensures k < |PURGE_STEPS| && k <= ReadLimit(PURGE_STEPS[k].statement.where)
  {
    StepPositions();
    ReadLimits();
    if k < 9 {
      assert PURGE_STEPS[k] == PURGE_STEPS[..9][k];
      assert TRANSCRIPT_STEPS[k].statement.where in {BY_MESSAGE, BY_CHAT, BY_THREAD};
    } else if k < 19 {
      assert PURGE_STEPS[k] == PURGE_STEPS[9..19][k - 9];
    } else {
      assert PURGE_STEPS[k] == PURGE_STEPS[19..26][k - 19];
    }
  }

  /** Every step finds rows the way their table is found, and can still find all of them. */
  lemma StepsWellPlaced(k: nat)
    requires k < |PURGE_STEPS|
    ensures Finds(PURGE_STEPS[k].statement.table, PURGE_STEPS[k].statement.where)
    ensures k <= ReadLimit(PURGE_STEPS[k].statement.where)
    ensures PURGE_STEPS[k].statement.ClearColumn? ==>
              Loose(PURGE_STEPS[k].statement.table, PURGE_STEPS[k].statement.column)
  {
    StepPositions();
    if k < 26 {
      EarlyStepsInTime(k);
    }
    if k < 9 {
      assert PURGE_STEPS[k] == PURGE_STEPS[..9][k];
      TranscriptLooks(k);
    } else if k < 19 {
      assert PURGE_STEPS[k] == PURGE_STEPS[9..19][k - 9];
      WorkflowLooks(k - 9);
    } else if k < 26 {
      assert PURGE_STEPS[k] == PURGE_STEPS[19..26][k - 19];
      RootLooks(k - 19);
    } else if k < 42 {
      assert PURGE_STEPS[k] == PURGE_STEPS[26..42][k - 26];
      StandaloneLooks(k - 26);
    } else {
      assert PURGE_STEPS[k] == PURGE_STEPS[42..][k - 42];
      CredentialLooks(k - 42);
      ReadLimits();
    }
  }

  // ---------------------------------------------------------------- Nothing left to refuse

  /** The statements the restricting keys wait for. */
  lemma WaitedFor()
    ensures |PURGE_STEPS| == 52
    ensures PURGE_STEPS[2].statement == DeleteFrom(ToolCalls, BY_CHAT)
    ensures PURGE_STEPS[3].statement == DeleteFrom(Approvals, BY_THREAD)
    ensures PURGE_STEPS[4].statement == DeleteFrom(ContextWindows, BY_THREAD)
    ensures PURGE_STEPS[6].statement == ClearColumn(Threads, ForkAtMessageId, BY_CHAT)
    ensures PURGE_STEPS[7].statement == DeleteFrom(Messages, BY_CHAT)
    ensures PURGE_STEPS[50].statement == DeleteFrom(Connections, BY_USER)
  {
    StepPositions();
    assert PURGE_STEPS[..9][2] == TRANSCRIPT_STEPS[2] && PURGE_STEPS[..9][3] == TRANSCRIPT_STEPS[3];
    assert PURGE_STEPS[..9][4] == TRANSCRIPT_STEPS[4] && PURGE_STEPS[..9][6] == TRANSCRIPT_STEPS[6];
    assert PURGE_STEPS[..9][7] == TRANSCRIPT_STEPS[7] && PURGE_STEPS[42..][8] == CREDENTIAL_STEPS[8];
  }

  /** The positions from which a delete that reaches the key's parent is safe. */
  function SafeFrom(fk: ForeignKey): nat
    requires Refusing(KeyOf(fk).action)
  {
    match fk
    case IntoMessages(_) => 7
    case IntoThreads(_) => 8
    case _ => 51
  }

  lemma MessageRefuserGone(k: nat, key: MessageKey, sel: Selector)
    requires Refusing(MessageKeyOf(key).action) && Finds(MessageKeyOf(key).child, sel)
    requires 7 <= k <= |PURGE_STEPS|
    ensures DeletedBefore(PURGE_STEPS, k, MessageKeyOf(key).child, sel)
            || ClearedBefore(PURGE_STEPS, k, MessageKeyOf(key).child, MessageKeyOf(key).column, sel)
  {
    WaitedFor();
  }

  lemma ThreadRefuserGone(k: nat, key: ThreadKey, sel: Selector)
    requires Refusing(ThreadKeyOf(key).action) && Finds(ThreadKeyOf(key).child, sel)
    requires 8 <= k <= |PURGE_STEPS|
    ensures DeletedBefore(PURGE_STEPS, k, ThreadKeyOf(key).child, sel)
  {
    WaitedFor();
  }

  lemma SecretsGone(k: nat)
    requires 51 <= k <= |PURGE_STEPS|
    ensures Gone(PURGE_STEPS, k, ConnectionSecrets, In(ConnectionId, Connections, BY_USER))
  {
    WaitedFor();
    assert DeletedBefore(PURGE_STEPS, k, Connections, BY_USER);
    assert KeyOf(IntoCredentials(SecretsConnection)) == Key(ConnectionSecrets, ConnectionId, Connections, Cascade);
  }

  lemma RefusingGroups(fk: ForeignKey)
    requires Refusing(KeyOf(fk).action)
    ensures fk.IntoMessages? || fk.IntoThreads? || fk == IntoCredentials(SecretsVaultKey)
  {
  }

  lemma RefuserGone(k: nat, fk: ForeignKey, sel: Selector)
    requires Refusing(KeyOf(fk).action) && Finds(KeyOf(fk).child, sel)
    requires SafeFrom(fk) <= k <= |PURGE_STEPS|
    ensures Gone(PURGE_STEPS, k, KeyOf(fk).child, sel)
            || ClearedBefore(PURGE_STEPS, k, KeyOf(fk).child, KeyOf(fk).column, sel)
  {
    RefusingGroups(fk);
    if fk.IntoMessages? {
      MessageRefuserGone(k, fk.messageKey, sel);
    } else if fk.IntoThreads? {
      ThreadRefuserGone(k, fk.threadKey, sel);
    } else {
      assert sel == In(ConnectionId, Connections, BY_USER);
      SecretsGone(k);
    }
  }

  lemma VaultKeysComeLast(k: nat)
    requires k < |PURGE_STEPS|
    ensures PURGE_STEPS[k].statement.table == VaultKeys <==> k == 51
  {
    StepPositions();
    if k < 9 {
      assert PURGE_STEPS[k] == PURGE_STEPS[..9][k];
    } else if k < 19 {
      assert PURGE_STEPS[k] == PURGE_STEPS[9..19][k - 9];
    } else if k < 26 {
      assert PURGE_STEPS[k] == PURGE_STEPS[19..26][k - 19];
    } else if k < 42 {
      assert PURGE_STEPS[k] == PURGE_STEPS[26..42][k - 26];
    } else {
      assert PURGE_STEPS[k] == PURGE_STEPS[42..][k - 42];
    }
  }

  lemma RefusableRoots(root: Table, fk: ForeignKey)
    requires Refusing(KeyOf(fk).action) && Reaches(root, KeyOf(fk).parent)
    ensures fk.IntoMessages? ==> root.Messages? || root.Chats? || root.Projects?
    ensures fk.IntoThreads? ==> root.Threads? || root.Chats? || root.Projects?
    ensures !fk.IntoMessages? && !fk.IntoThreads? ==> root.VaultKeys?
  {
  }

  lemma DeleteUnblocked(k: nat)
    requires k < |PURGE_STEPS| && PURGE_STEPS[k].statement.DeleteFrom?
    ensures Unblocked(PURGE_STEPS, k, PURGE_STEPS[k].statement.table)
  {
    var root := PURGE_STEPS[k].statement.table;
    forall fk, sel | Refusing(KeyOf(fk).action) && Reaches(root, KeyOf(fk).parent) && Finds(KeyOf(fk).child, sel)
      ensures Gone(PURGE_STEPS, k, KeyOf(fk).child, sel)
              || ClearedBefore(PURGE_STEPS, k, KeyOf(fk).child, KeyOf(fk).column, sel)
    {
      RefusableRoots(root, fk);
      if root.VaultKeys? {
        VaultKeysComeLast(k);
      } else if k < FirstTouch(root) {
        UntouchedUntil(k + 1, root);
      }
      RefuserGone(k, fk, sel);
    }
  }

  /** The order `purgeSteps` is written in is a safe one. */
  lemma PurgeOrderIsSafe()
    ensures OrderSafe(PURGE_STEPS)
  {
    forall k | 0 <= k < |PURGE_STEPS| ensures StepSafe(PURGE_STEPS, k) {
      var s := PURGE_STEPS[k].statement;
      StepsWellPlaced(k);
      FindingIsFixed(s.table, s.where);
      ReadableUntil(k, s.table, s.where);
      if s.DeleteFrom? {
        DeleteUnblocked(k);
      }
    }
  }

  // ---------------------------------------------------------------- Everything is reached

  /** Step `j` of the purge is a delete of exactly these rows. */
  predicate DeletesAt(j: nat, t: Table, sel: Selector) {
    j < |PURGE_STEPS| && PURGE_STEPS[j].statement == DeleteFrom(t, sel)
  }

  predicate IsTranscript(t: Table) {
    || t.MessageContentBlocks? || t.ToolCallResults? || t.ToolCalls? || t.Approvals?
    || t.ContextWindows? || t.AgentMessages? || t.Messages? || t.Threads?
  }

  lemma TranscriptReached(t: Table, sel: Selector) returns (j: nat)
    requires IsTranscript(t) && Finds(t, sel) && sel != BY_TOOL_CALL
    ensures j < |TRANSCRIPT_STEPS| && TRANSCRIPT_STEPS[j].statement == DeleteFrom(t, sel)
  {
    match t {
      case MessageContentBlocks => j := 0;
      case ToolCallResults => j := 1;
      case ToolCalls => j := 2;
      case Approvals => j := 3;
      case ContextWindows => j := 4;
      case AgentMessages => j := 5;
      case Messages => j := 7;
      case Threads => j := 8;
    }
  }

  predicate IsWorkflow(t: Table) {
    || t.StepExecutions? || t.WorkflowCheckpoints? || t.Questions? || t.ChatUpdates?
    || t.BackgroundProcessOutput? || t.BackgroundProcesses? || t.Workflows? || t.UserUpdates?
    || t.UpdateStreamCounters?
  }

  lemma WorkflowReached(t: Table, sel: Selector) returns (j: nat)
    requires IsWorkflow(t) && Finds(t, sel)
    ensures j < |WORKFLOW_STEPS| && WORKFLOW_STEPS[j].statement == DeleteFrom(t, sel)
  {
    match t {
      case StepExecutions => j := 0;
      case WorkflowCheckpoints => j := 1;
      case Questions => j := 2;
      case ChatUpdates => j := 3;
      case BackgroundProcessOutput => j := 4;
      case BackgroundProcesses => j := 5;
      case Workflows => j := 6;
      case UserUpdates => j := 7;
      case UpdateStreamCounters => j := if sel == USER_COUNTER then 8 else 9;
    }
  }

  predicate IsRoot(t: Table) {
    || t.Chats? || t.Plans? || t.ProjectConfigs? || t.ProjectDaemons? || t.Repos? || t.Worktrees?
    || t.Projects?
  }

  lemma RootReached(t: Table, sel: Selector) returns (j: nat)
    requires IsRoot(t) && Finds(t, sel)
    ensures j < |ROOT_STEPS| && ROOT_STEPS[j].statement == DeleteFrom(t, sel)
  {
    match t {
      case Chats => j := 0;
      case Plans => j := 1;
      case ProjectConfigs => j := 2;
      case ProjectDaemons => j := 3;
      case Repos => j := 4;
      case Worktrees => j := 5;
      case Projects => j := 6;
    }
  }

  predicate IsPlainStandalone(k: PlainTable) {
    || k.ConnectorAuditLog? || k.DaemonAttachment? || k.WorkflowScenarios? || k.WorkflowDrafts?
    || k.Presets? || k.VisibilityOverrides? || k.CommandFavorites? || k.Settings? || k.Attachments?
    || k.LlmCallUsage? || k.LlmCallUsageDaily? || k.UserAppSessions?
  }

  predicate IsStandalone(t: Table) {
    || t.ConnectorClientBindings? || t.ConnectorGrants? || t.AccessTokens? || t.Daemons?
    || (t.Plain? && IsPlainStandalone(t.kind))
  }

  lemma PlainStandaloneReached(k: PlainTable) returns (j: nat)
    requires IsPlainStandalone(k)
    ensures j < |STANDALONE_STEPS| && STANDALONE_STEPS[j].statement == DeleteFrom(Plain(k), BY_USER)
  {
    match k {
      case ConnectorAuditLog => j := 2;
      case DaemonAttachment => j := 3;
      case WorkflowScenarios => j := 6;
      case WorkflowDrafts => j := 7;
      case Presets => j := 8;
      case VisibilityOverrides => j := 9;
      case CommandFavorites => j := 10;
      case Settings => j := 11;
      case Attachments => j := 12;
      case LlmCallUsage => j := 13;
      case LlmCallUsageDaily => j := 14;
      case UserAppSessions => j := 15;
    }
  }

  lemma StandaloneReached(t: Table, sel: Selector) returns (j: nat)
    requires IsStandalone(t) && Finds(t, sel)
    ensures j < |STANDALONE_STEPS| && STANDALONE_STEPS[j].statement == DeleteFrom(t, sel)
  {
    OtherLooks();
    if IsUserTable(t) {
      UserTableIsFoundByUser(t);
    }
    hide Finds, IsUserTable;
    match t {
      case ConnectorClientBindings => j := 0;
      case ConnectorGrants => j := 1;
      case AccessTokens => j := 4;
      case Daemons => j := 5;
      case Plain(k) => j := PlainStandaloneReached(k);
    }
  }

  predicate IsPlainCredential(k: PlainTable) {
    || k.ClaudeAuthTokens? || k.CodexAuthTokens? || k.CopilotAuthTokens?
    || k.AntigravityAuthTokens? || k.ApiKeys? || k.OauthFlows? || k.ConnectionEvents?
  }

  predicate IsCredential(t: Table) {
    || t.ProviderAccounts? || t.Connections? || t.VaultKeys?
    || (t.Plain? && IsPlainCredential(t.kind))
  }

  lemma PlainCredentialReached(k: PlainTable) returns (j: nat)
    requires IsPlainCredential(k)
    ensures j < |CREDENTIAL_STEPS| && CREDENTIAL_STEPS[j].statement == DeleteFrom(Plain(k), BY_USER)
  {
    match k {
      case ClaudeAuthTokens => j := 0;
      case CodexAuthTokens => j := 1;
      case CopilotAuthTokens => j := 2;
      case AntigravityAuthTokens => j := 3;
      case ApiKeys => j := 4;
      case OauthFlows => j := 6;
      case ConnectionEvents => j := 7;
    }
  }

  lemma CredentialReached(t: Table, sel: Selector) returns (j: nat)
    requires IsCredential(t) && Finds(t, sel)
    ensures j < |CREDENTIAL_STEPS| && CREDENTIAL_STEPS[j].statement == DeleteFrom(t, sel)
  {
    OtherLooks();
    if IsUserTable(t) {
      UserTableIsFoundByUser(t);
    }
    hide Finds, IsUserTable;
    match t {
      case ProviderAccounts => j := 5;
      case Connections => j := 8;
      case VaultKeys => j := 9;
      case Plain(k) => j := PlainCredentialReached(k);
    }
  }

  lemma StepReached(t: Table, sel: Selector) returns (j: nat)
    requires Finds(t, sel) && sel != BY_TOOL_CALL
    requires IsTranscript(t) || IsWorkflow(t) || IsRoot(t) || IsStandalone(t) || IsCredential(t)
    ensures DeletesAt(j, t, sel)
  {
    StepPositions();
    hide Finds, IsTranscript, IsWorkflow, IsRoot, IsStandalone, IsCredential, PURGE_STEPS, TRANSCRIPT_STEPS,
         WORKFLOW_STEPS, ROOT_STEPS, STANDALONE_STEPS, CREDENTIAL_STEPS;
    if IsTranscript(t) {
      j := TranscriptReached(t, sel);
      assert PURGE_STEPS[..9][j] == TRANSCRIPT_STEPS[j];
    } else if IsWorkflow(t) {
      j := WorkflowReached(t, sel);
      assert PURGE_STEPS[9..19][j] == WORKFLOW_STEPS[j];
      j := 9 + j;
    } else if IsRoot(t) {
      j := RootReached(t, sel);
      assert PURGE_STEPS[19..26][j] == ROOT_STEPS[j];
      j := 19 + j;
    } else if IsStandalone(t) {
      j := StandaloneReached(t, sel);
      assert PURGE_STEPS[26..42][j] == STANDALONE_STEPS[j];
      j := 26 + j;
    } else {
      j := CredentialReached(t, sel);
      assert PURGE_STEPS[42..][j] == CREDENTIAL_STEPS[j];
      j := 42 + j;
    }
  }

  lemma TablesCovered(t: Table, sel: Selector)
    requires Finds(t, sel)
    ensures IsCarried(t) || IsTranscript(t) || IsWorkflow(t) || IsRoot(t) || IsStandalone(t) || IsCredential(t)
  {
  }

  lemma NamedIsGone(j: nat, t: Table, sel: Selector)
    requires DeletesAt(j, t, sel)
    ensures Gone(PURGE_STEPS, |PURGE_STEPS|, t, sel)
  {
    hide PURGE_STEPS;
    assert DeletedBefore(PURGE_STEPS, |PURGE_STEPS|, t, sel);
  }

  lemma HangsOffIsGone(t: Table, sel: Selector)
    requires ThroughKey(t, sel) && !Loose(t, sel.column) && Gone(PURGE_STEPS, |PURGE_STEPS|, sel.parent, sel.inner)
    ensures Gone(PURGE_STEPS, |PURGE_STEPS|, t, sel)
  {
    hide PURGE_STEPS;
    assert Linked(t, sel.column, sel.parent);
  }

  lemma NamedTableGone(t: Table, sel: Selector)
    requires Finds(t, sel) && !IsCarried(t) && sel != BY_TOOL_CALL
    ensures Gone(PURGE_STEPS, |PURGE_STEPS|, t, sel)
  {
    TablesCovered(t, sel);
    hide Finds, IsTranscript, IsWorkflow, IsRoot, IsStandalone, IsCredential, IsCarried, PURGE_STEPS, Gone;
    var j := StepReached(t, sel);
    NamedIsGone(j, t, sel);
  }

  lemma OnlyResultsGoWithCalls(t: Table)
    requires Finds(t, BY_TOOL_CALL)
    ensures t.ToolCallResults?
  {
  }

  /** All rows the purge can find are gone at its end: by the step that names them, or with the row they hang off. */
  lemma {:induction false} EveryTableGone(t: Table, sel: Selector)
    requires Finds(t, sel)
    ensures Gone(PURGE_STEPS, |PURGE_STEPS|, t, sel)
    decreases sel
  {
    if IsCarried(t) || sel == BY_TOOL_CALL {
      if sel == BY_TOOL_CALL {
        OnlyResultsGoWithCalls(t);
      }
      FoundThroughKeys(t, sel);
      FindingIsFixed(t, sel);
      hide Finds, IsCarried, PURGE_STEPS, Gone, Way;
      EveryTableGone(sel.parent, sel.inner);
      HangsOffIsGone(t, sel);
    } else {
      NamedTableGone(t, sel);
    }
  }
}
