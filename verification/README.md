# Reliant: protocols and state machines, verified

A Dafny model of the parts of Reliant that keep state over time, with proofs about every run of them. `dafny verify
dfyconfig.toml` checks the whole project.

Three kinds of thing are modelled, hardest first.

**Deleting an account.** `Schema`, `Sql` and `PurgePlan` are a small relational engine: rows as finite maps, DELETE and
UPDATE with CASCADE, SET NULL, RESTRICT and NO ACTION, and the 52 ordered statements of the purge as data. `Ownership`
keeps apart whose a row is (the user id it carries, or the link it must have) and where the purge looks for it.
`PurgeOrder` gives a condition on such a list alone and proves that a list meeting it goes through for every isolated
user and touches nobody else; `PurgeSteps` shows that the shipped list meets it; `AccountPurge` draws the conclusions,
says exactly when every row of the user is gone, and models the transaction. `OrphanedRows` is about rows that no longer
name anybody. `DeleteSemantics` and `PurgeAudit` say the same again without the engine and without the list: what one
delete does, told from which row refers to which, and which rows go, told table by table from their columns.
`UsageLedger` is the lock-and-fence protocol that keeps the usage ledger from being written after a purge, with any
number of writers and purges interleaved step by step, and with the fence's expiry; `LedgerHistory` proves that its
tables are those of a book to which every commit happens at once.

**Daemon credentials.** `DaemonStore` is the (origin, account) file, `DaemonMint` the preflight that decides whether to
mint, refresh or give up, `InstanceSlug` the directory naming, `CredentialRepair` the loop that repairs an idling daemon.
`CredentialShelf` is the file's reference model and `MintDecisions` the preflight's, told from the answers it gets.

**Caches, limiters and asynchronous protocols.** `IntrospectionCache`, `EventDedup`, `CrashLimiter`, `StdoutLines`,
`ProviderLogin`, `MenuShortcuts`, `PortWaiter`, `ChunkedDownload` and `AuthStorage`. `CacheLifetime`, `CrashReports`,
`LoginOutcomes` and `ShortcutAudience` say what four of them come to, told from the history alone.

Each module has the same shape. A state and a step function say what one call or callback does. Where the original
updates an object or module variables in place, a class with those fields has methods proved equal to the step function.
`Run` or `After` folds steps over any sequence of events, and the theorems are about every such sequence. An event that
the outside world decides (a reply, a timer, the clock, a failing write) is a parameter, and `Enabled` says when it can
happen. `Text` and `Wrappers` are shared helpers.

## Where the code and its own description differ

The model follows the code, and a lemma shows each difference in what it models.

- The purge is said never to reach another user's data, and to delete every row of the user. Both hold if and only if no
  row of someone else refers to a row of the user, and the user's rows in fourteen tables are where the purge looks for
  them (`PurgeErasesExactlyOneUser`, with `SharedProjectBreaksIsolation` for the first half). The second half fails in
  ordinary databases, in two ways, and trigger history is outside the claim.
  - An approval raised without a thread is looked for by thread
    (internal/workflow/runtime/activities/handlers/approval.go:199-202), and a plan by project, which no writer of plans
    sets (internal/llm/tools/plan_tool.go:313-322, internal/handlers/plan/plan.go:84-91,
    internal/handlers/chat/chat_branch.go:518-525): `PlanWithoutProjectSurvives`, `OneUsersChatIsPurged`.
  - The list says that workflows carry no user id (internal/accountpurge/accountpurge.go:181-182). They carry
    `owner_user_id`, "who this run belongs to" (internal/db/core/workflow.go:29-40), which the writers set to the chat's
    user (internal/workflow/runtime/activities/handlers/run_owner.go:8-48, internal/handlers/chat/chat_branch.go:266-275),
    and no key on `chat_id`. Deleting a chat or its project therefore leaves its runs, their steps, checkpoints,
    questions and action tickets behind, and the purge looks for all of them through the chat: `RunOutlivesItsChat`,
    `DeletedChatsRunIsLeft`.
  - Trigger history carries a user id and always survives (`UnreachedRowSurvives`).
- The package is said to remove every row stored for one user. What a deleted chat, thread or run leaves behind without
  any user id (approvals, questions, chat updates, checkpoints, plans, a chat's stream counter, runs without an owner and
  their steps) belongs to nobody any more, and no purge of anybody ever removes it (`OrphanOutlivesEveryPurge`).
- Tables that carry a user's id and that no statement or key of the purge reaches keep their rows:
  `video_generation_jobs`, `model_endpoints`, `inbox_dismissals`, `integration_writes`, `integration_event_access`,
  `integration_access_refresh`, `machine_pools` and `worktree_recoveries`; so do `tasks`, `provider_backoff`,
  `message_order_counters` and `worktree_recovery_checkouts`, which lead to the user by id without a foreign key. The
  schema of the model does not have them.
- The package comment lists five restricting keys. `connection_secrets.vault_key_id` has no ON DELETE clause and blocks
  too, which is why the step on `vault_keys` must stay last (`VaultKeysComeLast`). The comment on `worktrees` says no
  cascade covers them; the migration declares one.
- "Never again" for purged usage holds under time bounds: workflows end within 14 days, and a purge commits within 16
  days of its start, since its fence is dated at the start and kept 30 days. `PurgedUsageNeverReturns` assumes both, and
  `SlowPurgeLeaks` shows that the second cannot be dropped.
- Several accounts without a recorded default are said to resolve to nothing. The code still falls back to the
  no-account entry (`SeveralWithoutDefault`).
- The readable half of a slug is said to be capped at 32 bytes; it can reach 33, exactly as `CapIsPassedExactly` says.
- The first gap after a failed repair is the schedule's second entry, 2 s, because the count is raised before the gap is
  read; a leftover comment speaks of a cap of three attempts, and there is none.
- Held shortcuts are lost by expiry and overflow only, unless a handler unsubscribes the last subscriber while they are
  handed over: then the rest of that hand-over is lost (`UnheardExactlyAfterLastUnsubscribe`).
- A downloaded file is checked by its size alone, which sees only the last chunk (`SizeCheckSeesOnlyTheLastChunk`).
- Within the TTL the introspection cache can go back from inactive to active when two calls of one token overlap
  (`InactiveCanBeOverwritten`), and only then (`InactiveGivesWayToOverlapOnly`, `SerialCallsNeverOverwrite`).
- An answer is said to be cached for its five seconds. A lookup that read its clock before can miss one within them,
  after a sweep of an overfull cache (`OldClockCanMiss`; exactly then, `ServedExactly`).
- A recoverable failure is said never to destroy a session that is still good. A read that migrates an old plain-text
  file writes the session file first, and a write that breaks off does destroy it (`ReadDestroysOnlyByABrokenWrite`).

## Model

| member | source | states |
|---|---|---|
| Schema.ReachesFollowsCascades | db/migrations/20261014050404_baseline.up.sql:3329-3674 | the tables a delete can reach by cascade, as written down, are closed under every ON DELETE CASCADE key the migration declares |
| DeleteSemantics.CascadeIsClosed | internal/accountpurge/accountpurge.go:20-32 | the rows a delete takes are the rows named and whatever refers to one of them through a cascading key |
| DeleteSemantics.CascadeIsLeast | internal/accountpurge/accountpurge.go:20-32 | and no more: they are within every set that has the rows named and is closed under cascading references |
| DeleteSemantics.RefusedExactly | internal/accountpurge/accountpurge.go:20-32 | a delete is refused if and only if a row refers to one that would go, by RESTRICT, or by NO ACTION from a row that would stay |
| DeleteSemantics.RemovedExactly | internal/accountpurge/accountpurge.go:20-32 | what stays loses exactly the columns that named a row that went through a SET NULL key |
| PurgeOrder.SafeOrderProgresses | internal/accountpurge/accountpurge.go:16-40 | any ordered list meeting the static order condition runs through on every consistent database of an isolated user, and every prefix of it has removed only rows that are the user's and that the purge finds, finished its own steps and kept all references valid |
| PurgeOrder.RemovalStaysConsistent | internal/accountpurge/accountpurge.go:20-32 | a delete that no key refuses leaves every remaining reference valid: it was cascaded, cleared or untouched |
| PurgeOrder.FinishedStepsAreDone | internal/accountpurge/accountpurge.go:16-40 | a prefix of such a list that goes through, on any database, has done each of its steps on all that their WHERE clauses selected at the start |
| PurgeSteps.PurgeOrderIsSafe | internal/accountpurge/accountpurge.go:133-293 | the shipped list meets that condition at each of its 52 positions: every WHERE clause still finds all it should, and every row that could refuse the delete is gone or has let go |
| PurgeSteps.EveryTableGone | internal/accountpurge/accountpurge.go:133-293 | every row the purge finds, in any table, is gone after the list: by a step of its own or because the row it hangs off is gone |
| PurgeSteps.VaultKeysComeLast | internal/accountpurge/accountpurge.go:265-293 | the wrapped data keys are deleted by the last step and no other |
| Ownership.FoundIsOwned | internal/accountpurge/accountpurge.go:127-132 | every row the statements and cascades can find of an isolated user belongs to that user |
| Ownership.DependentIsFound | internal/accountpurge/accountpurge.go:18-40 | a row of the user that cascades from, or could refuse the deletion of, a row the purge finds is found as well |
| AccountPurge.IsolatedPurgeRemovesWhatItFinds | internal/accountpurge/accountpurge.go:133-293 | for an isolated user the purge goes through, leaves every other user's rows as they were, and the rows it removes are exactly those it finds |
| AccountPurge.PurgeErasesExactlyOneUser | internal/accountpurge/accountpurge.go:127-132 | on a consistent database the purge goes through, leaves no row that belongs to the user outside the trigger history and every other row as it was, if and only if no row of anyone else refers to one of the user's and the user's rows in fourteen tables are where the purge looks for them |
| PurgeAudit.OwnedInColumns | internal/accountpurge/accountpurge.go:127-132 | whose a row is, table by table and with every column written out, is what the statements about ownership mean |
| PurgeAudit.SelectedRowsGo | internal/accountpurge/accountpurge.go:133-293 | on every database, isolated or not, a purge that goes through leaves no row that one of the 52 statements names, told from the columns |
| PurgeAudit.UncarriedRowsGoExactly | internal/accountpurge/accountpurge.go:133-293 | and a row that no cascade can take goes if and only if a statement names it |
| PurgeAudit.VaultKeysGoExactly | internal/accountpurge/accountpurge.go:289-292 | on every database a wrapped data key goes if and only if its tenant is the user, by kind and by id |
| PurgeAudit.CountersGoExactly | internal/accountpurge/accountpurge.go:204-211 | on every database a stream counter goes if and only if it is the user's own or that of a chat which carries the user's id |
| PurgeAudit.PurgeRemovesExactly | internal/accountpurge/accountpurge.go:133-293 | for a user whom no other rows refer to, the rows that go are those the statements name and those that follow them by a cascading key, told from the columns, and everyone else's are as they were |
| PurgeAudit.PurgeErasesWhatBelongs | internal/accountpurge/accountpurge.go:127-132 | the claim of the comment holds if and only if nobody else's row refers to one that belongs to the user and each of those but trigger history is named by a statement or follows one, all told from the columns |
| AccountPurge.UnreachedRowSurvives | internal/accountpurge/accountpurge.go:152-154 | every row of an isolated user that is not where the purge looks, and all of the user's trigger history, is still there afterwards |
| AccountPurge.PlanWithoutProjectSurvives | internal/accountpurge/accountpurge.go:222-223 | every plan without a project and every approval without a thread survives the purge of its isolated user |
| AccountPurge.RunOutlivesItsChat | internal/accountpurge/accountpurge.go:181-198 | every run of an isolated user whose chat is no longer there survives the purge, and so do the steps, checkpoints, questions and action tickets of the user that go with such a run |
| AccountPurge.DeletedChatsRunIsLeft | internal/accountpurge/accountpurge.go:181-198 | a run that names its owner but whose chat is gone, with one step: both are the user's, the user is isolated, the purge goes through and leaves both |
| AccountPurge.OneUsersChatIsPurged | internal/accountpurge/accountpurge.go:133-293 | a database of one user with a tool result that has no message yet, a plan and an approval without a thread: the user is isolated, the result goes with its call, and exactly the plan and the approval are left |
| AccountPurge.SharedProjectBreaksIsolation | internal/accountpurge/accountpurge.go:129-132 | a chat of one user in another's project is a consistent database on which the claim of the comment fails |
| OrphanedRows.UnselectedStays | internal/accountpurge/accountpurge.go:325-334 | on every database, isolated or not, a row that no statement of a list selects at the start and that holds no column of a cascading key is still there after every prefix of the list |
| OrphanedRows.OrphanIsNobodys | internal/accountpurge/accountpurge.go:127-132 | a row without a user id whose chat, thread and run are gone belongs to no user, and no user's purge finds it |
| OrphanedRows.OrphanOutlivesEveryPurge | internal/accountpurge/accountpurge.go:3-8 | such a row is still there, and still nobody's, after any sequence of purges that go through, of any users, on any database |
| AccountPurge.RunExhausts | internal/accountpurge/accountpurge.go:325-334 | after any prefix of any list, on any database, each statement already run would touch no row |
| AccountPurge.SecondPurgeFindsNothing | internal/accountpurge/accountpurge.go:42-48 | on every database, once a purge has gone through a second one goes through too, touches 0 rows and changes nothing |
| AccountPurge.EveryRowIsAccountedFor | internal/accountpurge/accountpurge.go:325-334 | rows before + cleared pointers = reported total + rows cascaded + rows left, after every prefix of any list |
| AccountPurge.ChatsFirstIsRefusedExactly | internal/accountpurge/accountpurge.go:28-32 | DELETE FROM chats as first statement is refused, under the strict reading of RESTRICT, if and only if some row pins, through a restricting key, a thread or message of one of the user's chats |
| AccountPurge.ChatsFirstFailsOnAnyMessage | internal/accountpurge/accountpurge.go:28-32 | so under the strict reading of RESTRICT it is refused for every user with a message in a thread of their chats |
| AccountPurge.ReportIsExact | internal/accountpurge/accountpurge.go:325-334 | the reported total and the rows whose count the driver lost add up to the rows the statements touched |
| AccountPurge.RunStatements | internal/accountpurge/accountpurge.go:325-334 | the statement loop succeeds exactly when no statement fails, with the database and the total of the whole list, and otherwise names the first that fails |
| AccountPurge.Store.Purge | internal/accountpurge/accountpurge.go:297-340 | all or nothing: success has the effect of the whole list and the fence, any failure leaves rows and fence as they were, reports 0 and says where it failed |
| UsageLedger.RunKeepsInvariant | internal/store/llm_call_usage_repo_ext.go:112-156 | in every interleaving a purge holds the lock alone, what it deleted is still everything, and no fenced user has usage or a write that got past the fence |
| UsageLedger.FencedUsersHaveNoUsage | internal/accountpurge/accountpurge.go:312-323 | in every interleaving a user whose fence stands has no usage row and no rollup |
| UsageLedger.PurgedUsageNeverReturns | internal/store/llm_call_usage_repo_ext.go:249-262 | within the time bounds, no usage of a workflow that ran at the commit of a purge is recorded, then or ever, also after the fence is pruned |
| UsageLedger.SlowPurgeLeaks | internal/store/llm_call_usage_repo_ext.go:249-262 | for every longer purge there is a run in which such usage is recorded |
| LedgerHistory.TablesAreTheBook | internal/store/llm_call_usage_repo_ext.go:112-156 | in every interleaving the rows, the rollup and the fences are those of a book in which each write, each purge and each prune happens at once, at its commit |
| LedgerHistory.RollupCountsRows | internal/store/llm_call_usage_repo_ext.go:140-156 | a user's rollup never counts fewer calls than the user has rows, and exactly as many while nothing is pruned |
| LedgerHistory.RollupCountsCommits | internal/store/llm_call_usage_repo_ext.go:140-156 | a user's rollup is the number of commits since the user's latest purge that found their key free |
| LedgerHistory.UnfencedWriteIsRecorded | internal/store/llm_call_usage_repo_ext.go:112-156 | from every reachable state a write whose user has no fence and no purge under way can run to its end, and leaves its own call under its key and one more in the rollup, unless the key was there |
| LedgerHistory.FencedWriteIsRefused | internal/store/llm_call_usage_repo_ext.go:129-136 | a write that finds a fence ends without a trace |
| DaemonStore.CredentialsFile.Upsert | electron/src/daemon-creds.js:394-418 | writes the one entry and makes it the origin's default, or fails and leaves the file alone |
| DaemonStore.CredentialsFile.Delete | electron/src/daemon-creds.js:444-463 | removes what the lookup resolves to, with the empty origin and the default repointed, or leaves the file alone |
| DaemonStore.HistoryIsWellFormed | electron/src/daemon-creds.js:394-463 | after every history of writes and deletes each origin has accounts under distinct names that agree with their entries, and a recorded default that names one of them |
| DaemonStore.DefaultLookupResolves | electron/src/daemon-creds.js:288-322 | after every history a lookup without an account resolves if and only if the origin has an entry |
| DaemonStore.NamedLookupIsOwn | electron/src/daemon-creds.js:288-322 | after every history a lookup with an account never returns another account's entry |
| DaemonStore.WriteTouchesOnePair | electron/src/daemon-creds.js:394-418 | a write is what its account and the default then resolve to, and no other pair changes |
| DaemonStore.EraseTouchesOnePair | electron/src/daemon-creds.js:444-463 | a delete leaves the account it resolved to without an entry, and no other pair changes |
| DaemonStore.SeveralWithoutDefault | electron/src/daemon-creds.js:281-305 | several accounts and no recorded default, or one that names none of them, resolve to the no-account entry when there is one |
| DaemonStore.LookupWithoutName | electron/src/daemon-creds.js:281-322 | on any file a lookup without an account means the recorded default when it names one, else the only account, else the no-account one |
| DaemonStore.LookupWithName | electron/src/daemon-creds.js:281-322 | on any file a lookup with an account means that account alone, and a missing or malformed file has nothing |
| CredentialShelf.FileIsTheShelf | electron/src/daemon-creds.js:394-463 | after every history each origin has the account names in the order they were added, the entries last written and the default last written, or the oldest name left once the default was deleted |
| CredentialShelf.LookupReadsTheShelf | electron/src/daemon-creds.js:288-322 | after every history a lookup gives the entry of the account it names, or of that default |
| DaemonMint.MintDaemonPAT | electron/src/daemon-creds.js:514-554 | the retry loop gives the result and the number of requests of the attempts it should make |
| DaemonMint.AttemptsStopAtTheFirstFinalReply | electron/src/daemon-creds.js:529-554 | at most three requests; every reply but the last was worth retrying, and the last is a token, not worth retrying, or the third |
| MintDecisions.RetriesExactlyPassing | electron/src/daemon-creds.js:631-660 | a failure is worth another request if and only if it is a 502, 503 or 504, a time-out, or names one of seven network faults, and is neither terminal nor an abort |
| Text.ContainsBetween | electron/src/daemon-creds.js:653-658 | a message contains a fault's name exactly when the name stands between some beginning and some end |
| MintDecisions.MintMakesRequests | electron/src/daemon-creds.js:529-554 | a mint makes one request, and a second and a third while the answer before was such a failure, and its result is the last one's |
| DaemonMint.Preflight.EnsurePAT | electron/src/daemon-creds.js:871-1057 | outcome, file, stored session, requests and refreshes of one preflight, for every sequence of replies and failures |
| MintDecisions.IdleOutcomes | electron/src/daemon-creds.js:871-940 | unavailable, already-current and no-session are told apart by what is stored and given alone, and then nothing is asked |
| MintDecisions.RefreshesExactly | electron/src/daemon-creds.js:952-1016 | the session is refreshed, once, if and only if that is configured and possible and the token is within a minute of its expiry or the first run of requests ended in a 401 |
| MintDecisions.MintsExactly | electron/src/daemon-creds.js:976-1046 | a token is minted if and only if the preflight asks, the last reply of the first run, or of the run after a refreshed 401, is a token, and the file can be written; and the number of requests is theirs |
| MintDecisions.StoredExactly | electron/src/daemon-creds.js:764-812 | the session stored afterwards is the renewed one, with what the endpoint left out carried forward, when there is one and it can be saved; a mint leaves an entry with the deciding token, the addresses, the time, the user and the e-mail |
| MintDecisions.EntriesExactly | electron/src/daemon-creds.js:926-1046 | every entry of the file afterwards is the minted one, nothing where an outdated one was removed, or what was there before |
| DaemonMint.EffortIsBounded | electron/src/daemon-creds.js:952-1028 | at most one refresh and two full mints, one without a refresh; already-current and unavailable ask nothing and change nothing |
| DaemonMint.MintedIsStored | electron/src/daemon-creds.js:1030-1046 | after a mint the acting user and the origin's default resolve to a well-formed token, the one of the last request |
| DaemonMint.OtherAccountsUntouched | electron/src/daemon-creds.js:896-936 | every pair but the account resolved at the start and the one minted for keeps its entry |
| DaemonMint.NoLegacyTokenSurvives | electron/src/daemon-creds.js:926-936 | a token of the old format is gone for a named account whether or not the mint works and whomever a refresh names |
| DaemonMint.MintConvergesExactly | electron/src/daemon-creds.js:896-924 | after a mint, calling again is already-current, with no request and no change, if and only if the session then on disk names the user minted for |
| DaemonMint.MintConverges | electron/src/daemon-creds.js:896-924 | so it is for a session with a user id that the refresh keeps |
| DaemonMint.AnonymousSessionNeverConverges | electron/src/daemon-creds.js:915-924 | without a user id it is never already-current, and every call with a token asks again |
| InstanceSlug.TrimCutset | electron/src/daemon-creds.js:1100-1106 | the two index loops strip exactly the leading and trailing dashes and dots |
| InstanceSlug.Sanitize | electron/src/daemon-creds.js:1120-1141 | the loop with its pending dash and early stop computes the specified readable half |
| InstanceSlug.SanitizedIsSafe | electron/src/daemon-creds.js:1108-1141 | the readable half is never empty, only [a-z0-9._-], has no dash or dot at an edge, and at most 33 characters |
| InstanceSlug.CapIsPassedExactly | electron/src/daemon-creds.js:1108-1141 | the readable half has 33 characters if and only if the text splits into a part that reduces to 31 characters beginning with no edge, a run of others, a readable character that is no edge, and a rest |
| InstanceSlug.CapIsPassedByOne | electron/src/daemon-creds.js:1125-1138 | 31 readable characters, one other and one more give 33, past the cap of 32 |
| InstanceSlug.SanitizedIsCappedCollapse | electron/src/daemon-creds.js:1108-1138 | what the loop writes is a prefix of the text with every run of other characters collapsed to one dash, and all of it below the cap |
| InstanceSlug.ReadableTextIsKept | electron/src/daemon-creds.js:1108-1141 | readable text below the cap with clean edges is unchanged |
| InstanceSlug.SlugHasThreeSegments | electron/src/daemon-creds.js:1204-1224 | splitting a slug at "/" gives exactly its three segments, none empty |
| InstanceSlug.SlugReads | electron/src/daemon-creds.js:1143-1224 | the three segments are the readable half of origin, user and workspace name, a dash and eight digits of the hash; a path goes by its last component or "root", and a signed-out instance by "_default" |
| InstanceSlug.ReadableCharacters | electron/src/daemon-creds.js:1108-1123 | the characters kept are the small letters, the digits, the dash, the dot and the underscore |
| InstanceSlug.SlugIsInjective | electron/src/daemon-creds.js:1204-1224 | equal slugs have equal components wherever the hash prefix tells them apart, and a signed-out instance never shares one with a signed-in one |
| CredentialRepair.Reconciler.MaybeStart | electron/src/backend-manager.js:805-812 | starts an attempt exactly when none is in flight, the loop is not stopped, a session store exists and the gap has passed |
| CredentialRepair.Reconciler.Finish | electron/src/backend-manager.js:814-867 | only a mint and a failure use up an attempt, only already-current stops the loop, and the next gap follows the count |
| CredentialRepair.Reconciler.Tick | electron/src/backend-manager.js:734-753 | a tick tries a repair while the daemon awaits credentials and re-arms the loop when it does not |
| CredentialRepair.RepairsNeverOverlap | electron/src/backend-manager.js:799-812 | in every run an attempt starts only after the one before ended, by at least the backoff of the attempts used up by then, and never after already-current |
| CredentialRepair.StartsExactlyWhenReady | electron/src/backend-manager.js:805-893 | in every run an awaiting tick starts an attempt if and only if the history of attempts since the last reset says so |
| CredentialRepair.FailureNeverStopsTheLoop | electron/src/backend-manager.js:795-803 | with the shipped schedule, whatever ended the latest attempt but already-current, an awaiting tick 30 s later starts another |
| CredentialRepair.AlreadyCurrentStops | electron/src/backend-manager.js:843-850 | after already-current no attempt starts until the daemon leaves the awaiting state or is reset |
| CredentialRepair.FailuresSlowDown | electron/src/backend-manager.js:2228-2240 | n >= 5 attempts that each used one up span at least 30 s times (n - 4) |
| CredentialRepair.StartsAfterTheGap | electron/src/backend-manager.js:2228-2240 | with the shipped schedule an awaiting tick starts an attempt if and only if none is unfinished, none found the store current, and the gap is over: one second doubled for each mint or failure, and 30 s at most |
| CredentialRepair.ResetRearms | electron/src/backend-manager.js:734-753 | a reset or a tick of a daemon that no longer awaits credentials forgets every attempt but one in flight, and with none the next awaiting tick starts one at once |
| IntrospectionCache.CachedIntrospector.Introspect | internal/accesstokenclient/client.go:437-459 | one undisturbed call: from the cache while fresh, else what the remote side says, which every lookup is then served for five seconds unless it is a transport error; no other token's lookup changes |
| IntrospectionCache.CachedIntrospector.Store | internal/accesstokenclient/client.go:461-474 | the sweep loop over an overfull map removes exactly the expired entries before the new one is stored |
| IntrospectionCache.SweepIsInvisible | internal/accesstokenclient/client.go:464-472 | a sweep changes the answer of no lookup at or after its own time |
| IntrospectionCache.RunIsHonest | internal/accesstokenclient/client.go:437-474 | in every interleaving of overlapping calls each cached answer was given by the remote side no more than the TTL before it expires, and none is a transport error |
| IntrospectionCache.CachedAnswersAreRecent | internal/accesstokenclient/client.go:415-459 | an answer served from the cache to a lookup at n was given for that token after n - TTL |
| IntrospectionCache.RevocationTakesEffect | internal/accesstokenclient/client.go:21-24 | a token revoked at r is never served as active to a lookup at or after r + TTL |
| IntrospectionCache.OnlyOverlappingCallsOverwrite | internal/accesstokenclient/client.go:437-474 | in every interleaving a call replaces an answer that has not expired only if it looked up before that answer was stored |
| IntrospectionCache.InactiveGivesWayToOverlapOnly | internal/accesstokenclient/client.go:437-474 | in every interleaving an unexpired inactive answer gives way only to a call of its token that overlapped the one that stored it |
| IntrospectionCache.SerialCallsNeverOverwrite | internal/accesstokenclient/client.go:437-474 | in a run where calls of one token do not overlap no answer is replaced before it expires |
| IntrospectionCache.InactiveCanBeOverwritten | internal/accesstokenclient/client.go:451-457 | two overlapping calls can leave an older active answer over a newer inactive one |
| CacheLifetime.CacheHoldsLatest | internal/accesstokenclient/client.go:437-474 | in every interleaving the cache holds the latest answer stored for each token, to five seconds after its call looked up, unless a sweep came after that |
| CacheLifetime.ServedExactly | internal/accesstokenclient/client.go:437-474 | in every interleaving a lookup is served that answer if and only if its clock reads less than five seconds after that of the call which brought it and no sweep took it since |
| CacheLifetime.ServedForFiveSeconds | internal/accesstokenclient/client.go:415-459 | for a lookup that begins now or later the five seconds decide alone |
| CacheLifetime.LookUpIsAnswered | internal/accesstokenclient/client.go:437-451 | a call that looks up returns that answer, or goes on to ask |
| CacheLifetime.OldClockCanMiss | internal/accesstokenclient/client.go:461-474 | with 10001 tokens in the cache a lookup whose clock was read before can miss an answer within its five seconds |
| EventDedup.Client.Duplicate | internal/analytics/client.go:140-156 | the swept map after a call and its answer, sweep loop included |
| EventDedup.SweptMapAnswersAsHistory | internal/analytics/client.go:140-156 | for calls in clock order the swept map suppresses an event exactly when the full history of emissions would |
| EventDedup.EmissionsAreSpaced | internal/analytics/client.go:115-126 | two emissions of one key are at least the window apart |
| EventDedup.SuppressionHasACause | internal/analytics/client.go:115-126 | every suppressed event has an emission of its key less than the window before it |
| EventDedup.KeyIsInjective | internal/analytics/client.go:119-123 | keys agree exactly when name, user and identity do, for names and users without a NUL |
| CrashLimiter.CrashSignalReporter.Report | electron/src/crash-signals.js:137-164 | one death: what is sent, with the count of dropped ones, and both maps afterwards |
| CrashReports.SentDescribesTheDeath | electron/src/crash-signals.js:44-165 | an event has the death's process type, route, exit code or -1, a known reason or "unknown", a safe service name or none, and the number of crashes of its type dropped since the last event |
| CrashReports.SentExactly | electron/src/crash-signals.js:137-164 | a death is reported if and only if it is no clean exit and fewer than the maximum of events were sent for its type less than the window before |
| CrashLimiter.CrashesAreConserved | electron/src/crash-signals.js:123-165 | in every history crashes of a type = sent + drops reported + drops waiting to be reported |
| CrashLimiter.RateIsLimited | electron/src/crash-signals.js:123-165 | any half-open window as long as the limiter's holds at most the maximum of events sent per process type, although older times are forgotten |
| CrashLimiter.DropIsNeeded | electron/src/crash-signals.js:141-148 | a crash is dropped only when that many were sent less than the window before it |
| StdoutLines.DaemonOutput.Consume | electron/src/backend-manager.js:927-947 | one chunk: the complete lines are handled in order and the unfinished one is kept |
| StdoutLines.ConsumeExtends | electron/src/backend-manager.js:916-931 | reading on from the kept tail gives what reading the longer text at once gives |
| StdoutLines.ChunkingDoesNotMatter | electron/src/backend-manager.js:916-947 | for every way of cutting the output into chunks, notices and log lines are those of the complete lines of the whole, in order, and the tail is its last line |
| StdoutLines.WrittenLinesAreHandled | electron/src/backend-manager.js:927-947 | lines written in full are handled one by one in order and an unfinished one is kept, however the output is cut |
| StdoutLines.TextIsLogged | electron/src/backend-manager.js:933-945 | a blank line says nothing, and a text between blanks that is no notice is logged without them |
| StdoutLines.NoticeAnnounces | electron/src/backend-manager.js:936-940 | a line that begins with the marker announces the stream named after it, without the blanks around |
| ProviderLogin.Flow.Settle | electron/src/oauth-provider-login.js:90-119 | the first settle frees the port, clears the timer, fixes the promise and arms the reaper; a later one does nothing |
| ProviderLogin.Receiver.Listen | electron/src/oauth-provider-login.js:229-273 | a new flow under a new id, findable, listening, with its timer armed |
| ProviderLogin.Receiver.OnRequest | electron/src/oauth-provider-login.js:161-212 | only a request on the callback path to a flow still findable settles it, with the code or with the joined error |
| ProviderLogin.Receiver.Cancel | electron/src/oauth-provider-login.js:306-313 | settles a pending flow with the reason, drops it and its reaper, and says whether it was known |
| ProviderLogin.Receiver.Wait | electron/src/oauth-provider-login.js:284-292 | shares the promise of a flow that is findable and rejects any other id |
| ProviderLogin.FlowsAreSound | electron/src/oauth-provider-login.js:90-119 | in every run a flow holds its port, its timer and a pending promise exactly until it settles, a pending flow can be found, and no two hold one port |
| ProviderLogin.PortReopensOnceSettled | electron/src/oauth-provider-login.js:96-108 | a fixed port can be opened again exactly when every flow that had it has its outcome |
| ProviderLogin.FirstEventDecides | electron/src/oauth-provider-login.js:83-119 | a promise has the outcome of the first callback, fault, timeout or cancel that reaches the flow, at that time, and none before |
| LoginOutcomes.RedirectDecides | electron/src/oauth-provider-login.js:196-226 | when the first to reach a pending flow is a redirect on its path, the promise is for ever the trimmed code with its state and the flow's own address, or without a code the error, the description, both, or the stock message |
| LoginOutcomes.OthersRefuse | electron/src/oauth-provider-login.js:228-272 | a listener's fault, the time-out and a cancel refuse a pending flow for ever, each in its own words |
| LoginOutcomes.OthersLeavePending | electron/src/oauth-provider-login.js:161-212 | a request off the path, and whatever happens to another flow, leaves a flow pending |
| LoginOutcomes.FlowsKeepTheirOpening | electron/src/oauth-provider-login.js:239-273 | in every run a flow has the port, the address and the time it was opened with |
| LoginOutcomes.PortIsFreeExactly | electron/src/oauth-provider-login.js:96-108 | a port can be opened if and only if no flow that was opened on it is pending |
| LoginOutcomes.TimersFireExactly | electron/src/oauth-provider-login.js:57-119 | a flow times out ten minutes after it was opened if still pending, and its outcome is dropped five minutes after it came |
| ProviderLogin.OutcomeIsFinal | electron/src/oauth-provider-login.js:83-91 | once settled a promise reads the same in every continuation, for waits before and after the callback |
| ProviderLogin.WaitWithinRetention | electron/src/oauth-provider-login.js:65-77 | a wait finds every flow nobody cancelled until its outcome is at least five minutes old |
| ProviderLogin.NothingOutlivesItsTimer | electron/src/oauth-provider-login.js:57-77 | with prompt timers no port is held longer than ten minutes and no outcome kept longer than five |
| ProviderLogin.CancelIsFinal | electron/src/oauth-provider-login.js:299-313 | after a cancel the port is free, the outcome is fixed, and no later wait finds the flow |
| MenuShortcuts.Preload.OnMenuShortcut | electron/src/preload.js:67-77 | an id runs at once when somebody listens and nothing is being handed over; otherwise it is held, keeping the latest ten |
| MenuShortcuts.Preload.OnFlush | electron/src/preload.js:51-65 | the deferred hand-over: nothing without subscribers, else every unexpired id in order, whatever the handlers do to the subscriptions |
| MenuShortcuts.QueueIsBounded | electron/src/preload.js:51-77 | in every run at most ten ids are held, and held ids with a subscriber have a hand-over scheduled |
| MenuShortcuts.DirectPathCannotOvertake | electron/src/preload.js:67-74 | in every run nothing is held when an id runs at once |
| MenuShortcuts.EveryIdIsAccountedFor | electron/src/preload.js:33-77 | in every run the ids delivered are the arrivals that ran, in order and once each; the rest are still held, were older than the hold, or had ten later ones behind them |
| MenuShortcuts.UnheardExactlyAfterLastUnsubscribe | electron/src/preload.js:37-65 | a delivered id is heard by nobody exactly when an earlier handler of the same hand-over left no subscription |
| MenuShortcuts.UnsubscribingHandlerLosesTheRest | electron/src/preload.js:51-65 | a run in which that loses an id |
| ShortcutAudience.SubscribersAreListening | electron/src/preload.js:35-47 | in every run exactly those are subscribed who subscribed and did not unsubscribe since, in a handler or outside |
| ShortcutAudience.ArrivalIsHeard | electron/src/preload.js:67-77 | an id that arrives while somebody listens and nothing waits is heard by all who listen; any other is held and heard by nobody yet |
| ShortcutAudience.HandOverIsHeard | electron/src/preload.js:51-65 | in a hand-over each id is heard by those whom the handlers of the ids before it left subscribed |
| ShortcutAudience.ScheduledExactly | electron/src/preload.js:51-65 | a hand-over is scheduled only when something is held, and always when somebody listens too |
| PortWaiter.Waiter.Dispatch | electron/src/wait-for-port.js:11-47 | every callback of the event loop on the closure's variables, timers, socket and listener |
| PortWaiter.WaiterIsSound | electron/src/wait-for-port.js:8-51 | for every order of connect, error, attempt timeout, deadline and abort: before settling exactly one of a live socket and a pending retry, with the deadline; after it no timer, socket or listener, and one settlement |
| PortWaiter.NothingHappensAfterSettling | electron/src/wait-for-port.js:22-31 | once settled no callback can run any more |
| PortWaiter.FirstDecisionSettles | electron/src/wait-for-port.js:22-47 | the first deciding event settles the wait its way, and every other one leaves it pending |
| PortWaiter.DeadlineBoundsTheWait | electron/src/wait-for-port.js:3-48 | with punctual timers a pending wait is never past its deadline, and the deadline's timer is there to end it |
| PortWaiter.TriesAreSpaced | electron/src/wait-for-port.js:34-38 | n tries take at least (n - 1) retry delays |
| PortWaiter.TimersAreExact | electron/src/wait-for-port.js:11-47 | while a socket is open its timer is due one time-out after the try began, and otherwise the retry one delay after the try ended |
| PortWaiter.TriesKeepComing | electron/src/wait-for-port.js:34-47 | with timers on time n tries are used up in n time-outs and delays at most |
| PortWaiter.StartDecides | electron/src/wait-for-port.js:34-50 | a wait settles at once when its signal is aborted already or its first connection throws, in this order, and otherwise begins one try |
| ChunkedDownload.RangesFollowOn | electron/src/chunked-downloader.js:122-135 | the inclusive ranges are non-empty, adjoin, and run from the first byte to the last |
| ChunkedDownload.RangesTile | electron/src/chunked-downloader.js:122-135 | every byte is asked for by exactly one request |
| ChunkedDownload.Downloader.DownloadChunk | electron/src/chunked-downloader.js:50-107 | the first acceptable of three replies, or none |
| ChunkedDownload.Downloader.Download | electron/src/chunked-downloader.js:110-187 | success exactly when the output opens, every chunk was fetched and written and the size agrees, with the file and the progress told; a failing size request leaves the previous file, and any later failure no file |
| ChunkedDownload.AllChunksIffEachObtainable | electron/src/chunked-downloader.js:50-107 | all chunks are there exactly when each had an acceptable reply among three and its write succeeded |
| ChunkedDownload.FirstGoodReplyIsKept | electron/src/chunked-downloader.js:50-107 | the body kept for a chunk is that of the first of its three replies with status 200 or 206 |
| ChunkedDownload.BytesAreInPlace | electron/src/chunked-downloader.js:130-165 | with no reply longer than its range, each byte of the file is the one its own chunk's reply has there, and zero where that reply was too short |
| ChunkedDownload.HonestRepliesGiveTheSource | electron/src/chunked-downloader.js:130-165 | when each reply is its slice, the assembled file is the source |
| ChunkedDownload.HonestProgress | electron/src/chunked-downloader.js:130-160 | and the progress told after a chunk is where its range ends |
| ChunkedDownload.SizeCheckSeesOnlyTheLastChunk | electron/src/chunked-downloader.js:163-168 | with no reply longer than its range, the size check passes exactly when the last chunk is complete |
| ChunkedDownload.WholeFileReplies | electron/src/chunked-downloader.js:75-78 | with a server that ignores ranges the size check passes exactly when one chunk is enough |
| AuthStorage.Storage.ReadStoredAuth | electron/src/auth-storage.js:181-277 | which of the outcomes a read has, after the migration, and what it leaves in the files and the latch |
| AuthStorage.Storage.SaveAuth | electron/src/auth-storage.js:345-387 | a save that completes writes the session under the present key and lifts the latch; one that does not leaves the file as it was or, when the write broke off, broken |
| AuthStorage.ReadSaysWhy | electron/src/auth-storage.js:181-277 | after the migration a read gives the session exactly when there is one to be had, and else says what stood in the way first, when, and whether the file is gone |
| AuthStorage.OldFileGoesExactly | electron/src/auth-storage.js:128-162 | the old plain-text file goes if and only if it can be read and removed and has no session worth keeping or was taken over |
| AuthStorage.ClearForgets | electron/src/auth-storage.js:389-419 | a clear succeeds if and only if what is there can be removed, and then nothing is left to read or report |
| AuthStorage.SaveThenRead | electron/src/auth-storage.js:181-184 | a read after a save gives the saved session exactly when it tries to take no other over from an old plain-text file, or that write is refused, or it is the same session |
| AuthStorage.ReadDestroysOnlyByABrokenWrite | electron/src/auth-storage.js:20-38 | a session readable under the present key survives a read, whatever else fails, if and only if the read does not try to take another over with a write that breaks off |
| AuthStorage.UnremovableLegacyAlwaysWins | electron/src/auth-storage.js:128-162 | while the old plain-text file cannot be removed, its session replaces every saved one at each read that can encrypt and write |
| AuthStorage.ReadDeletesExactlyTheHopeless | electron/src/auth-storage.js:20-38 | the file that the migration leaves is deleted exactly when it was read and decryption offered, no session came out under the present key, and deleting works; a later read that takes over no old file then reports nothing |
| AuthStorage.IncidentsAreReportedOnce | electron/src/auth-storage.js:313-325 | over every history each incident is handed out for good at most once, oldest first |
| AuthStorage.LatchHoldsTheLatest | electron/src/auth-storage.js:298-325 | the latest failed read stays latched, and is what a take returns, through every run of operations, failed ones included, other than a completed save, a completed clear, a consuming take, a further failed read and a read that completes the take-over of an old file |

## Left out

- Sockets, HTTP, TLS, spawning, the OS key store, the SQL driver, Temporal and NATS: each is a reply, a failure flag or an event of the model.
- SHA-256, case folding, URL and path functions are parameters; SlugIsInjective assumes of the hash prefix only that it tells the compared components apart. Canonicalising a workspace and `endpointKey` are not modelled; an origin that does not parse is the empty string.
- RESTRICT is taken at its strictest reading: a delete is refused by any referring row present when it runs, also one the same statement would remove. The order in which Postgres fires its internal triggers, and other database triggers such as the one on deleting worktrees, appear only as a statement that may fail.
- The schema has the tables the purge deletes from and those that refer to them by foreign key. `chats.machine_pool_id` and `triggers.machine_pool_id` refer to a table the purge never deletes from, so they play no part. Payload blobs and catalogue tables carry no user.
- A run without an owner id is the user's through its chat only: `workflows.parent_id` is not followed. What a question or an approval says besides its chat, its thread and its two run ids plays no part.
- A token is its creator's as well as the acting user's; the only writer sets both to the same id (internal/store/access_token_repo_ext.go:141-155).
- Preview, the row counts shown before a deletion, is not modelled.
- The usage ledger records a call as its user and its workflow's start; token counts, the day of a rollup and cost are not modelled.
- Prototype keys, entries that are not objects, and the ordering JavaScript gives integer-like keys play no part in the credentials file; an account list keeps insertion order.
- Tokens, sessions and e-mails are opaque strings; the session store's read never throws into the preflight. Back-off sleeps between mint requests are not timed.
- The limiter and the deduplication are proved for clocks that do not run backwards, which is what RateIsLimited and SweptMapAnswersAsHistory require of their histories.
- CrashLimiter keeps the event fields that come from the death itself; the constant environment fields and the telemetry record built from the event are left out. The attribute list of an analytics event is left out as well.
- StdoutLines works on characters: a UTF-8 sequence split between chunks, and what a stream notice goes on to trigger, are not modelled.
- ProviderLogin: the page shown in the browser, the choice of redirect host, and a listener that fails before it has a flow are left out; timers fire at or after their time, and on time where Prompt says so.
- MenuShortcuts: handlers can change the subscriptions and can fail, but an id cannot arrive in the middle of a hand-over, as in the single-threaded original. The clock need not be monotone.
- ChunkedDownload: delays, the speed figures of the progress report, and a write that stores fewer bytes than it was given are not modelled; closing and unlinking the file are assumed to work.
- AuthStorage: directory creation and a failing encryption count as a refused write; the expiry of a session is only logged by the original and has no effect here.
- Window surfacing, menu accelerators, page generation, wildcard scopes and the mapping of an introspection answer to a principal: selections over small tables, which would add only easy members.
- An intentional stop never leading to a restart is not claimed: after a forced kill the flags are cleared before the exit event can arrive.
