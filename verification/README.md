# SheriffClaw: a verified model of its stateful core

SheriffClaw runs an AI agent behind a set of small services. This project models in Dafny the parts of it that keep
state by explicit rules, and proves what those rules are for:

| module | what it models |
|---|---|
| `GatewayQueue`, `GatewayRuns`, `Updater` | the gateway's message queue, the same as a step system with parking, waking and a lock, and the update command that pauses and drains it |
| `Protocol`, `Ndjson`, `Rpc`, `RpcRuns` | frames, line framing, the locked RPC client, the serial server, and the two interleaved over byte pipes |
| `Mcp` | the request loop of the JSON-RPC client for the agent's child process |
| `RotatingLog` | the numbered shift register of log files |
| `Vault`, `VaultRefinement` | the encrypted secrets vault, and its refinement of a plain table with a lock |
| `Policy`, `Requests`, `RequestsRuns`, `Tools`, `Approvals` | policy rows, the approval catalog, tool execution, and the approval loop across all of them |
| `Sessions`, `Tasks`, `Capture`, `Manager`, `ManagerRuns` | the session registry, the task store, turning messages into tasks, and the manager over them |
| `Polling` | Telegram polling against a server that hands out updates by id, and the slicing of long texts |
| `Versions` | component versions and the record of what was applied |
| `Common`, `Text` | shared definitions: tables, runs, Python's string operations |

Objects whose methods change their fields are classes; each method is proved against a specification function or
predicate, and the properties are lemmas about that specification, over every input, every run or every reachable
state. `dafny verify dfyconfig.toml` checks the whole project.

How runs are modelled: a state, the steps enabled in it, and the state after each of them. In `GatewayRuns`, `Updater`
and `RpcRuns` a step is what happens between two points at which another task can be scheduled, and all interleavings
are runs. In `RequestsRuns`, `ManagerRuns`, `Sessions`, `Capture` and `VaultRefinement` a step is one whole operation.

## Where the code does less than it seems to promise

Each of these is a theorem; the code is modelled as it is.

- The update command waits for work in flight, but only for 120 polls: a poll starts the update beside work in process if
  and only if it is the last of them and still reads some (`Updater.OverlapsIffPollsRanOut`), and there is such a run
  (`Updater.UpdateMayOverlap`). With the loop left by its `break`, quiescence is proved.
- The RPC streams have a limit of 10 MiB for a line. A longer frame makes the caller's request end by raising; the lock is
  then free with the rest of the answer still in the pipe, and the next caller reads that instead of its own answer
  (`RpcRuns.LongEventBreaksNextCall`). A longer request ends the connection. Whenever the lock is free, no request has
  failed if and only if every frame written was within the limit (`RpcRuns.FailsIffTooLong`).
- The MCP loop skips lines that are not JSON, but not lines over the stream's limit, lines that are not UTF-8, lines that
  `json.loads` refuses otherwise (too many digits, too deep nesting) or JSON that is not an object: those end the
  request. An answer to the request decides it if and only if no such line comes first (`Mcp.DecidedByOwnAnswer`).
- The log counts lone surrogates as no bytes and writes them as one, so a file can outgrow both `max_bytes` and the
  largest append. Texts without lone surrogates, or that count for at least `max_bytes` by themselves, keep every run within
  that bound, and for every other text there is a run that breaks it (`RotatingLog.WithinIffGuarded`; for one append
  `RotatingLog.KeepsWithinIffGuarded`). A backup count below 1 still keeps one backup (`RotatingLog.IsRotation`).
- An empty master password makes `initialize` raise half-way and leaves a vault that reports itself unlocked and cannot
  be read (`VaultRefinement.InitializeNeedsPassword`). With any other password the vault is a plain table with a lock.
- Approvals write default policy rows, so a row of the principal's own that does not allow a tool is never overridden. And
  any text is taken for a handle and stored for it, also one that a process environment cannot hold, on which starting the
  child raises at every attempt. The approval loop ends in execution, within three calls or never, if and only if there is
  no such row, the executor accepts the argv, and either no handle is listed or the vault is open with its table of
  secrets, no handle has a '=' or a NUL, and what the vault has for it, or else what will be provided, is a text without
  NUL (`Approvals.Convergence`).
- The rendered task views show one line for each task if and only if no field of a task in them holds a newline
  (`Tasks.FileShowsEntries`); a title with newlines can show any other line (`Tasks.TitleForgesLine`).
- A version with a number of more than 4300 digits cannot be parsed, where Python limits `int()`: parsing gives back exactly
  the dotted lists of smaller numbers (`Versions.ParseDotted`).
- The session key "sessions" names the index file itself; the registry stays coherent under an operation if and only if
  its key is another one (`Sessions.CoherentUnlessIndexKey`).

## Model

| member | source | states |
|---|---|---|
| GatewayQueue.SheriffGateway.Join | services/sheriff_gateway/service.py:241 | a message goes to the end of its principal's line, and nothing else changes |
| GatewayQueue.SheriffGateway.TryClaim | services/sheriff_gateway/service.py:242-248 | a message starts exactly when it heads its line, its principal is not being served and the queue is not paused; its principal then counts as being served |
| GatewayQueue.SheriffGateway.Release | services/sheriff_gateway/service.py:255-260 | the finished id leaves its line only from the head, and its principal is no longer being served |
| GatewayQueue.SheriffGateway.QueueControl | services/sheriff_gateway/service.py:284-292 | pausing keeps the reason and resuming clears it; the reply tells the new state |
| GatewayQueue.SheriffGateway.QueueStatus | services/sheriff_gateway/service.py:294-297 | `pending` is the number of ids in all lines, `processing` the number of principals being served |
| GatewayRuns.InvStep | services/sheriff_gateway/service.py:239-292 | every step of every task, of queue control and of the lock keeps the queue's invariant |
| GatewayRuns.OneServedPerPrincipal | services/sheriff_gateway/service.py:241-260 | in every reachable state `_processing` is exactly the owners of tasks being served, one task each, and that task heads its line |
| GatewayRuns.FirstInFirstOut | services/sheriff_gateway/service.py:241-260 | ids leave each line in the order in which they joined it, at most once, and the line is what joined without what left |
| GatewayRuns.FinishPops | services/sheriff_gateway/service.py:255-258 | a finishing task heads its line, so the test in the finally block always removes its id, and no other occurrence of it remains |
| GatewayRuns.EnteredIsLeftPlusPending | services/sheriff_gateway/service.py:294-297 | a run from any state in which ids enqueued are ids removed plus `pending` keeps that so |
| GatewayRuns.EnqueuedIsRemovedPlusPending | services/sheriff_gateway/service.py:294-297 | over any run from the start, ids enqueued are ids removed plus `pending` |
| GatewayRuns.NoLostWakeUp | services/sheriff_gateway/service.py:242-248 | in every reachable state a task that waits on the condition without having been notified could not start |
| GatewayRuns.RefinesServers | services/sheriff_gateway/service.py:241-260 | seen by one principal, every step of the system is a step of a first-in-first-out server with one place, or no step |
| GatewayRuns.StartsIndependently | services/sheriff_gateway/service.py:242-248 | a message that is tested starts exactly when it heads its own line, its own principal is not being served and the queue is not paused, whoever else is being served |
| GatewayRuns.ServedSideBySide | services/sheriff_gateway/service.py:239-248 | two principals whose messages head their lines are served at the same time |
| GatewayRuns.JoinsItsOwnLine | services/sheriff_gateway/service.py:231-241 | a message that arrives goes to the end of the line of the principal it names and of no other |
| GatewayRuns.StuckIsDrained | services/sheriff_gateway/service.py:239-260 | when no internal step is possible nothing is being processed, and unless the queue is paused every line is empty and every id that joined has left |
| GatewayRuns.InternalStepWorks | services/sheriff_gateway/service.py:239-260 | every internal step, also the one that wakes all waiting tasks, lowers one natural number |
| GatewayRuns.GuaranteedDrain | services/sheriff_gateway/service.py:239-260 | from any reachable state internal steps end within that number, whatever raises, and unpaused they end only when everything that joined was served |
| GatewayRuns.PausedOnlyShrinks | services/sheriff_gateway/service.py:245-247 | as long as nobody resumes the queue, the set of principals being served only shrinks |
| Updater.DrainLoop | services/sheriff_ctl/system.py:77-83 | the loop leaves by `break` exactly when one of its 120 readings is zero, and at the first such reading |
| Updater.WorldInvHolds | services/sheriff_ctl/system.py:74-98 | the queue is paused exactly while the update command is between its pause and its resume, however the gateway runs meanwhile |
| Updater.QuiescentWhileUpdating | services/sheriff_ctl/system.py:74-98 | after the `break` and until the resume no message is being processed and none can start |
| Updater.PollsRunOut | services/sheriff_ctl/system.py:77-83 | with a message in process throughout, the remaining polls run out and the update starts |
| Updater.OverlapsIffPollsRanOut | services/sheriff_ctl/system.py:77-92 | in any history, the poll that starts the update leaves by `break` exactly when nothing is in process, and starts it beside work in process exactly when it was the last poll |
| Updater.UpdateMayOverlap | services/sheriff_ctl/system.py:77-92 | there is a run in which the update starts beside a message in process |
| Ndjson.NextLine | shared/ndjson.py:9 | a line is a prefix of the stream, and empty only at its end |
| Ndjson.FirstFrame | shared/ndjson.py:7-19 | the first line of a stream of frames decodes to the first frame, is over the limit exactly when that frame is, and the other frames follow it |
| Ndjson.ReadFrames | shared/ndjson.py:7-15 | the loop yields the decoded lines that are not blank, up to the end or to a line that is over the limit or not JSON |
| Ndjson.FramingRoundTrip | shared/ndjson.py:7-19 | reading back the encoding of a list of frames gives that list if and only if every frame is within the limit |
| Ndjson.ReadsFrames | shared/ndjson.py:7-15 | reading gives the frames of a stream in order and passes over its blank lines, up to whatever follows |
| Ndjson.BadLineStops | shared/ndjson.py:7-15 | a line over the limit, or neither blank nor JSON, ends the reading with what was read before it |
| Rpc.ProcClient.ReadLine | shared/proc_rpc.py:86-96 | reading takes one line off the stream and leaves the rest; a line over the limit raises, and what had arrived of it is dropped |
| Rpc.ProcClient.RequestPlain | shared/proc_rpc.py:158-185 | one request frame is written; the outcome and the unread rest of the stream are those of waiting for the id's final frame, also when a line over the limit ends the wait |
| Rpc.ProcClient.RequestStream | shared/proc_rpc.py:158-168 | the streaming form yields the same events and final frame, fails in the same cases and leaves the same rest as the plain one |
| Rpc.NDJSONService.DispatchLine | shared/service_base.py:36-59 | a request is answered by its handler's events in order and one final frame carrying its id, an unknown operation by one error frame |
| Rpc.NDJSONService.HandleClient | shared/service_base.py:80-100 | the bytes written for a stream of requests are the answers to its lines, in order, up to the first line that is over the limit or not JSON |
| Rpc.ResponseTells | shared/service_base.py:42-59 | the answer to a request is its handler's events with their names and payloads in order and then the result returned, the empty object for none, or the text and class of what was raised; an unknown operation draws an error that names it |
| Rpc.ServesInOrder | shared/service_base.py:86-94 | the frames of a stream are answered one after the other, blank lines by nothing, and what follows is served after them |
| Rpc.BadLineHangsUp | shared/service_base.py:86-100 | a line over the limit, or neither blank nor JSON, ends the connection unanswered |
| RpcRuns.InvStep | shared/proc_rpc.py:158-185 | every step of the lock's holder or of the server keeps the connection's invariant: while all frames fit, the request under way is unread, being served, or answered with its final frame last; after one that does not, a request has failed or the one under way will |
| RpcRuns.Composition | shared/proc_rpc.py:158-211 | over all runs in which every frame written is within the limit: lock free implies both pipes empty, no request ends by raising, and the calls get their own answers, one each, in order |
| RpcRuns.FailsIffTooLong | shared/proc_rpc.py:16-68 | over all runs, whenever the lock is free: no request has failed if and only if every frame written was within the limit |
| RpcRuns.AnswersTell | shared/proc_rpc.py:158-211 | over all runs in which every frame written is within the limit, the n-th answer delivered carries the events that the handler of the n-th request emitted, with their payloads and in order, and the result that it returned or what it raised |
| RpcRuns.LongEventBreaksNextCall | shared/proc_rpc.py:158-185 | there is a run in which one event over the limit ends its request by raising and the next one by an unexpected frame id |
| RpcRuns.WaitingIsServed | shared/proc_rpc.py:170-185 | until a request has failed, a caller that waits never waits for nothing: a line is under way in some pipe, the server has hung up or a handler runs |
| RpcRuns.SettlingStepWorks | shared/proc_rpc.py:158-185 | every read, every line accepted and every handler that ends lowers one natural number |
| RpcRuns.GuaranteedReply | shared/proc_rpc.py:158-185 | from any reachable state, with no further calls and events, such steps end within that number, and if no request has failed by then the lock is free and both pipes are empty |
| RpcRuns.AwaitResponse | shared/service_base.py:36-59 | on the bytes a server writes for a request, the client's loop returns exactly those events and that final frame and leaves what follows unread if all these frames are within the limit, and raises otherwise |
| RpcRuns.AwaitTakesEvents | shared/proc_rpc.py:170-185 | events of the request are taken one by one, whatever follows them |
| RpcRuns.AwaitStops | shared/proc_rpc.py:172-185 | the end of the stream, a line that is not JSON, one over the limit and a frame of another request, which is named, each end the wait with an error of their own |
| Mcp.CodexMCPClient.Recv | shared/codex_mcp/client.py:193-213 | receiving skips blank lines and those with a JSONDecodeError only, and takes the first other line; a line over the limit may leave its end behind |
| Mcp.CodexMCPClient.HandleServerRequest | shared/codex_mcp/client.py:153-183 | a server request with an id gets one reply, one without gets none |
| Mcp.CodexMCPClient.Request | shared/codex_mcp/client.py:127-151 | ids count up by one; exactly the lines through the one that ends the wait, by an answer or an exception, are consumed; what is sent is the call followed by the replies those lines draw |
| Mcp.CodexMCPClient.AwaitAnswer | shared/codex_mcp/client.py:132-151 | the loop ends, reads and replies as the course of the wait says |
| Mcp.WaitIs | shared/codex_mcp/client.py:132-151 | that course is the outcome of the first ending line, the lines after it, and the replies to the lines before it |
| Mcp.WaitEnds | shared/codex_mcp/client.py:132-151 | the wait ends at the first line that can end it, wherever that is, or at the end of the output |
| Mcp.OutcomeTells | shared/codex_mcp/client.py:132-151 | what the first ending line makes of the request: the result object, the empty object for none, the error's message or else its text, or an exception, and what stays to be read |
| Mcp.AnswersIff | shared/codex_mcp/client.py:134-140 | a line answers a request exactly when it has no method and its id is that number, as an integer, a float or a truth value |
| Mcp.RepliesTell | shared/codex_mcp/client.py:153-183 | a ping and a request for the roots are answered, other server requests with an id refused with -32601, and nothing else is replied to |
| Mcp.RepliesJoin | shared/codex_mcp/client.py:132-136 | the replies to lines are those to each of them, in order |
| Mcp.DecidedByOwnAnswer | shared/codex_mcp/client.py:132-151 | an answer to its own id decides a request if and only if one comes before any line that raises anything but JSONDecodeError or is JSON but not an object |
| Mcp.OneAnswer | shared/codex_mcp/client.py:137-140 | a line answers at most one request id, so a late answer is never taken for a later request's |
| Mcp.OneReplyEach | shared/codex_mcp/client.py:153-183 | every server request with an id is replied to once, with that id, in order; notifications and everything else are not |
| RotatingLog.RotatingTextLog.Append | shared/oplog.py:83-92 | an append that fits extends the current file at its end; one that does not rotates and starts a new one; an empty one does nothing |
| RotatingLog.WrittenJoins | shared/oplog.py:89-90 | a text is written in order: the bytes of two texts together are those of the first followed by those of the second |
| RotatingLog.WrittenOne | shared/oplog.py:88-90 | a scalar value is written as its UTF-8 bytes and a lone surrogate as '?', which is not counted |
| RotatingLog.RotatingTextLog.RotateIfNeeded | shared/oplog.py:94-107 | backups below the count move up by one, the current file becomes number 1, the one at the count is gone and no other file is touched |
| RotatingLog.AppendOnList | shared/oplog.py:83-107 | with at least one backup the directory stays a current file and backups contiguous from 1 |
| RotatingLog.AppendKeepsSuffix | shared/oplog.py:83-107 | the old content and the new text are what was dropped followed by the new content |
| RotatingLog.DirsFollowPlay | shared/oplog.py:83-107 | the directory after any run of appends from an empty one holds the files of `Play` |
| RotatingLog.CountBelowOneIsOne | shared/oplog.py:94-107 | with a backup count below 1 the directory is what it would be with a count of 1 |
| RotatingLog.HistoryIsAllTexts | shared/oplog.py:83-90 | the history of a run is all its texts, written one after the other |
| RotatingLog.Retention | shared/oplog.py:83-107 | what can be read is a suffix of everything appended; adjacent files exceed `max_bytes`; once anything was dropped more than floor((n+1)/2) times `max_bytes` remain |
| RotatingLog.FileSizes | shared/oplog.py:83-97 | for any texts, no file exceeds the larger of `max_bytes` and the largest append by more than the lone surrogates of one append |
| RotatingLog.KeepsWithinIffGuarded | shared/oplog.py:83-97 | one append keeps all files within the larger of `max_bytes` and itself, whatever files there were, if and only if it has no lone surrogates or counts for at least `max_bytes` |
| RotatingLog.WithinIffGuarded | shared/oplog.py:83-97 | every run of a text among texts without lone surrogates keeps all files within the larger of `max_bytes` and the largest append if and only if the text passes that guard |
| RotatingLog.GuardedRun | shared/oplog.py:83-97 | in any run of texts that all pass the guard no file exceeds the larger of `max_bytes` and the largest append |
| RotatingLog.SurrogatesOverflow | shared/oplog.py:88-90 | with lone surrogates a file does exceed that bound |
| RotatingLog.WrittenIsCountedPlusSurrogates | shared/oplog.py:88-90 | the bytes written are the bytes counted and one more for every lone surrogate |
| Vault.SecretsState.constructor | shared/secrets_state.py:26-27 | a new process unlocks itself from the session file if that holds the accepted password, and removes the file otherwise |
| Vault.SecretsState.LoadSessionUnlock | shared/secrets_state.py:164-178 | the password is taken from the session file only if the verifier accepts it; a session file that is no use is removed |
| Vault.SecretsState.VerifyMasterPassword | shared/secrets_state.py:199-205 | exactly the password whose hash is in the verifier file is accepted |
| Vault.SecretsState.Require | shared/secrets_state.py:253-257 | access is granted exactly when a non-empty password is at hand, if need be from the session file |
| Vault.SecretsState.DbSet | shared/secrets_state.py:70-91 | key and value are stored under the key's hash, sealed with the password, or access is refused |
| Vault.SecretsState.DbGet | shared/secrets_state.py:93-109 | the value under the key's hash, or the default when there is none or it does not open |
| Vault.SecretsState.Initialize | shared/secrets_state.py:180-197 | the table holds exactly the defaults under the new password and the vault is locked; with an empty password the first write raises |
| Vault.SecretsState.Unlock | shared/secrets_state.py:232-242 | only the accepted password unlocks, and it is then kept in the session file |
| Vault.SecretsState.Lock | shared/secrets_state.py:244-246 | the password and the session file are gone |
| Vault.SecretsState.IsUnlocked | shared/secrets_state.py:248-251 | whether there is a password, also after picking it up from the session file |
| Vault.SecretsState.GetSecret | shared/secrets_state.py:267-269 | the handle's value in the table of secrets, null when it has none |
| Vault.SecretsState.SetSecret | shared/secrets_state.py:271-274 | the table of secrets with that handle changed is stored back |
| Vault.SecretsState.EnsureHandle | shared/secrets_state.py:276-278 | whether the table of secrets has the handle; of a text or list stored in its place, whether the handle is a part or an item of it; anything else raises |
| VaultRefinement.PutAllStores | shared/secrets_state.py:180-197 | after initialize exactly the default keys are stored, each sealed under the password |
| VaultRefinement.StepRefines | shared/secrets_state.py:70-109 | every operation keeps all rows sealed under the one accepted password and answers as the plain table does |
| VaultRefinement.VaultIsPlainTable | shared/secrets_state.py:164-278 | any sequence of initialize, verify, unlock, lock, restart, set and get answers as a plain table with a lock, to which a restart is nothing |
| VaultRefinement.SetThenGet | shared/secrets_state.py:70-109 | in an open vault a key reads as it was last set and setting it changes no other; a locked one neither reads nor changes |
| VaultRefinement.SetSecretThenGet | shared/secrets_state.py:267-278 | a handle reads as it was last set, is then there, and setting it changes no other handle and no other key |
| VaultRefinement.SecretsStartEmpty | shared/secrets_state.py:267-278 | without a value a handle reads as null and is not there |
| VaultRefinement.HandleInOther | shared/secrets_state.py:267-278 | with something else stored for the secrets, reading and setting a handle raise, and asking for it is a test for an item or a part |
| VaultRefinement.OpensWithItsPassword | shared/secrets_state.py:199-251 | exactly the master password is verified and opens the vault, and locking closes it |
| VaultRefinement.FreshVaultHolds | shared/secrets_state.py:38-53 | a fresh vault is closed under its password and holds what it was given, each under its own key, and the defaults for the rest |
| VaultRefinement.FreshVaultKeys | shared/secrets_state.py:38-53 | it has exactly those eight keys |
| VaultRefinement.InitializeNeedsPassword | shared/secrets_state.py:180-197 | initialize succeeds if and only if the password is not empty; after a failure the vault unlocks with the empty password and cannot be read |
| Policy.PermissionsStore.GetDecision | shared/permissions_store.py:22-28 | the stored row of that principal and resource, and none exactly when there is no such row |
| Policy.PermissionsStore.SetDecision | shared/permissions_store.py:30-35 | one row is inserted or replaced |
| Policy.SheriffPolicyService.GetDecision | services/sheriff_policy/service.py:13-20 | the principal's own row, or else the default one |
| Policy.SheriffPolicyService.SetDecision | services/sheriff_policy/service.py:22-25 | one row is inserted or replaced |
| Requests.NewestPendingIsNewest | services/sheriff_requests/service.py:108-112 | the instance chosen is pending, of that entry and the latest such one; none is chosen only if none is pending |
| Requests.SheriffRequestsService.InsertRequestInstance | services/sheriff_requests/service.py:100-106 | one pending instance is added |
| Requests.SheriffRequestsService.ResolveInstance | services/sheriff_requests/service.py:108-126 | the newest pending instance is resolved, or a resolved one is added |
| Requests.SheriffRequestsService.CreateOrUpdate | services/sheriff_requests/service.py:128-191 | a new or open entry takes the new text, an approved one stays; one instance is added; a notice is sent for a new entry, a forced request or a change of status |
| Requests.SheriffRequestsService.Settle | services/sheriff_requests/service.py:315-335 | the entry is inserted or updated with its new status, an instance is resolved and one notice is sent |
| Requests.SheriffRequestsService.ResolveSecret | services/sheriff_requests/service.py:238-295 | a denial or a stored value settles the entry; a locked vault changes nothing |
| Requests.SheriffRequestsService.ResolvePolicyItem | services/sheriff_requests/service.py:297-338 | the default row and the entry get matching decisions; an unknown action changes nothing |
| Requests.CreateTells | services/sheriff_requests/service.py:128-191 | the entry, the one pending instance and the notice that a request leaves: a notice is sent exactly when the entry is new, was denied or the request is forced, and nothing else changes |
| Requests.SecretTells | services/sheriff_requests/service.py:238-295 | the entry, the instance, the notice and the vault after a secret was denied or provided, and that a locked vault leaves everything as it was |
| Requests.PolicyTells | services/sheriff_requests/service.py:297-338 | the same for a policy item, whose default row becomes ALLOW or DENY to match; any other action leaves everything as it was |
| RequestsRuns.CatalogAgreesWithPolicy | services/sheriff_requests/service.py:137-163 | every run of whole operations keeps that an entry is immutable exactly when approved, and that a domain, tool or disclosure entry is approved exactly when the default decision is ALLOW |
| RequestsRuns.FreshRunsAgree | services/sheriff_requests/service.py:137-163 | that holds after every run from empty tables |
| RequestsRuns.ApprovedStays | services/sheriff_requests/service.py:154-156 | an approved entry does not change until a resolution of it takes effect |
| RequestsRuns.RequestAccounting | services/sheriff_requests/service.py:100-126 | per entry: resolved instances equal resolutions, all instances equal creations plus resolutions that found none pending, unforced notices are at most one plus the denials |
| RequestsRuns.ResolvedIsTerminal | services/sheriff_requests/service.py:108-126 | a resolved instance never changes again |
| RequestsRuns.RequestedIsAsked | services/sheriff_requests/service.py:149-179 | after every run, the last notice about an entry that is requested is one that asks the user for it |
| Tools.SheriffToolsService.EnsureToolAllowed | services/sheriff_tools/service.py:18-35 | nothing is asked for when the decision is ALLOW, and one tool approval otherwise |
| Tools.SheriffToolsService.ResolveSecretEnv | services/sheriff_tools/service.py:37-66 | either all listed handles with their values, or the missing ones in order with one request each, or a locked vault |
| Tools.SheriffToolsService.ExecTool | services/sheriff_tools/service.py:68-88 | the policy decision comes first, then the secrets, then the executor, which raises for arguments, names and texts that a child process cannot be given; every refusal leaves exactly its own requests behind |
| Tools.RequestsTell | services/sheriff_tools/service.py:26-59 | what the user is told of a request: the tool or the handle, and the first six words of the command |
| Approvals.ExecutesIffGranted | services/sheriff_tools/service.py:18-88 | a tool runs if and only if the decision is ALLOW, the executor accepts the argv, and every listed handle is a name, and has in the open vault a text, that an environment can hold; the child sees exactly those texts over the service's environment |
| Approvals.OutcomeTells | services/sheriff_tools/service.py:18-88 | what a call comes to, in the order in which the argv, the decision, the lock, the values and what a child process can be given are looked at |
| Approvals.RefusalAsks | services/sheriff_tools/service.py:26-65 | a refused call adds one pending request for the tool, or for each missing handle in order, which the catalog then has as requested unless it was approved; any other call adds none |
| Approvals.AnswerIs | services/sheriff_requests/service.py:238-338 | granting what a refused call put into the catalog is granting what its outcome names |
| Approvals.NonBlankJoins | services/sheriff_tools/service.py:71 | the handles that are not blank are looked up in the order in which they are listed |
| Approvals.LackingJoins | services/sheriff_tools/service.py:45-65 | missing handles are named in that order |
| Approvals.AllowedNeedsTwo | services/sheriff_tools/service.py:37-88 | once a tool is allowed and the vault serves the handles, providing what the first call asked for makes the second one run |
| Approvals.Convergence | services/sheriff_requests/service.py:268-338 | calls and answers in turn reach execution within three calls, or within any larger number, if and only if the argv is accepted, no row of the principal's own forbids the tool and the vault can serve every handle, as can be told before the first call |
| Approvals.NeverServed | services/sheriff_tools/service.py:68-88 | with an argv that is not accepted, or handles or texts that an environment cannot hold, no number of answers makes a call run |
| Approvals.AnswerKeepsServes | services/sheriff_requests/service.py:268-338 | answering a refused call never changes whether the vault can serve the handles |
| Approvals.NeverOverridden | services/sheriff_policy/service.py:13-20 | with such a row any number of approvals and calls ends in the same refusal |
| Approvals.AttemptsAgree | services/sheriff_requests/service.py:297-338 | the whole approval loop keeps the catalog and the policy in agreement |
| Sessions.PathTexts | shared/session_registry.py:96-101 | different keys have different files |
| Sessions.SessionRegistry.UpdateSession | shared/session_registry.py:90-94 | the record goes into the index and into its own file |
| Sessions.SessionRegistry.EnsureSession | shared/session_registry.py:19-38 | a known session keeps its record, a new one gets the defaults and the index's generation |
| Sessions.SessionRegistry.MarkUsed | shared/session_registry.py:40-44 | only the time of last use changes |
| Sessions.SessionRegistry.BindThread | shared/session_registry.py:46-52 | the session is active and bound to the thread |
| Sessions.SessionRegistry.InvalidateSession | shared/session_registry.py:54-60 | the session has no thread and says why |
| Sessions.SessionRegistry.AddTaskRef | shared/session_registry.py:62-70 | the reference is added once |
| Sessions.SessionRegistry.WriteStale | shared/session_registry.py:77-86 | every record of the index, and every session file, becomes stale; no other file is touched |
| Sessions.SessionRegistry.MarkRestartGeneration | shared/session_registry.py:72-88 | the index has the next generation and all sessions are stale |
| Sessions.EnsureIsIdempotent | shared/session_registry.py:19-38 | ensuring a session again, at any later time, changes nothing |
| Sessions.RestartCoherent | shared/session_registry.py:72-88 | a restart clears every thread, marks every session stale under the next generation, keeps the task references and keeps index and files equal |
| Sessions.StepIndex | shared/session_registry.py:19-70 | an operation on one session changes no other record of the index, and of that one what it is for |
| Sessions.CoherentUnlessIndexKey | shared/session_registry.py:90-101 | an operation keeps every session file equal to its index record, generations equal and threads bound exactly when active, if and only if its key does not name the index file; otherwise every session is lost from the index |
| Sessions.RegistryCoherent | shared/session_registry.py:19-101 | that holds after every run of operations |
| Tasks.TaskStore.RenderViews | shared/task_store.py:110-120 | the three files are the joined entries of the tasks of their statuses in index order |
| Tasks.TaskStore.CreateTask | shared/task_store.py:24-52 | the task goes to the end of the index and the views match it |
| Tasks.TaskStore.UpdateTask | shared/task_store.py:54-63 | only that task changes, in the fields given and its time, and the views match; an unknown id changes nothing |
| Tasks.TaskStore.AppendNote | shared/task_store.py:65-82 | the note goes to the end of the details, its reference is added once, and the views match |
| Tasks.EachTaskShownOnce | shared/task_store.py:110-120 | each task has exactly one entry in the views together, in the view of its status, below those of its earlier fellows; there are no other entries |
| Tasks.FileShowsEntries | shared/task_store.py:119-120 | the lines of a view's file are its entries if and only if no id, status, title or session key of a task in it holds a newline |
| Tasks.TitleForgesLine | shared/task_store.py:118-120 | a task whose title holds newlines can show the line of any other task, stored or not |
| Tasks.LatestIs | shared/task_store.py:84-97 | the session's open task, in progress or blocked ones included, that no other was updated after, and of several the first by status and id; none only if the session has none |
| Capture.CaptureRate | shared/codex_session_manager.py:114-143 | whatever else happens in the store, as long as tasks stay open, one session's messages within T seconds make at most 1 + floor(T/900) tasks |
| Capture.CreationsAreSpaced | shared/codex_session_manager.py:131-143 | while a task is open, its session makes at most one more for every 900 seconds |
| Capture.CreationsApart | shared/codex_session_manager.py:131-143 | any two tasks made in a run of messages of one session lie more than 900 seconds apart |
| Capture.OthersAreNoted | shared/codex_session_manager.py:126-135 | every message neither skipped nor made a task is noted at the end of the details of the most recently updated open task, with its reference, and nothing else changes |
| Capture.JudgeTells | shared/codex_session_manager.py:122-143 | a message is skipped if it has no words or begins with a slash, noted if the session's latest open task was updated within 900 seconds, and made a task otherwise |
| Capture.NewTaskTells | shared/codex_session_manager.py:136-142 | the new task is open, the agent's and the session's, tells the message's words and refers to the message; its title is these words or how they begin |
| Capture.NoteTells | shared/codex_session_manager.py:125-134 | what is noted and referred to: channel, principal, words and whole seconds |
| Text.WordsOfJoin | shared/codex_session_manager.py:122 | words put together with single spaces come apart again into the same words |
| Text.WordsSplit | shared/codex_session_manager.py:122 | whitespace separates words wherever it is |
| Manager.CodexSessionManager.constructor | shared/codex_session_manager.py:16-26 | a new manager starts with a restart of the registry |
| Manager.CodexSessionManager.EnsureSession | shared/codex_session_manager.py:28-35 | a session without a thread is hydrated if asked for; otherwise it is only marked as used |
| Manager.CodexSessionManager.HydrateSession | shared/codex_session_manager.py:37-49 | one new conversation is opened and its thread, if it names one, is bound |
| Manager.CodexSessionManager.SendMessage | shared/codex_session_manager.py:51-67 | the bound thread is continued, or a conversation opened and bound; the caller is given that thread; a runtime that raises leaves the session as ensured |
| Manager.CodexSessionManager.InvalidateSession | shared/codex_session_manager.py:69-70 | the session loses its thread |
| Manager.CodexSessionManager.CreateTask | shared/codex_session_manager.py:90-109 | the new task is stored and its id referred to from its session |
| Manager.CodexSessionManager.CaptureMessage | shared/codex_session_manager.py:114-143 | a message is skipped, noted on the session's latest open task of the last 900 seconds, or made a task |
| ManagerRuns.ThreadDiscipline | shared/codex_session_manager.py:51-67 | over all runs a message continues the thread bound by the calls so far, and opens a conversation exactly when there is none |
| ManagerRuns.ThreadsTell | shared/codex_session_manager.py:28-70 | what each call does to the thread of any session: opening a conversation binds, invalidation and restart unbind, nothing else does anything |
| ManagerRuns.UseTells | shared/codex_session_manager.py:28-67 | a session that was ensured without a new conversation, or sent a message that did not raise, was last used then |
| ManagerRuns.BoundIsMostRecent | shared/session_registry.py:46-60 | the bound thread is the one most recently opened and bound, with no invalidation of the session and no restart since |
| ManagerRuns.TaskRefsAreItsTasks | shared/codex_session_manager.py:90-143 | over all runs a session's references are exactly the ids of the tasks made for it, in order and without duplicates |
| Polling.TelegramListenerService.PollBot | services/telegram_listener/service.py:281-328 | a reply's updates with user, chat and text are dispatched in order and the offset moves past all of them; a failed request changes nothing |
| Polling.TelegramListenerService.SaveOffsets | services/telegram_listener/service.py:85-86 | the file holds the offsets in memory |
| Polling.TelegramListenerService.SendMessage | services/telegram_listener/service.py:112-124 | one post is made for every slice of the text, in order |
| Polling.ChunksAreTheText | services/telegram_listener/service.py:112-115 | the slices put together are the text, none is empty or over 4000 characters, and all but the last are full |
| Polling.DispatchesAre | services/telegram_listener/service.py:297-328 | an update is dispatched exactly when it was returned, names a user and a chat and has a text that is not blank |
| Polling.DispatchesJoin | services/telegram_listener/service.py:297-328 | updates are dispatched in the order in which they were returned |
| Polling.NextOffsetPasses | services/telegram_listener/service.py:297-328 | the offset moves past every update of a reply, in whatever order they come, and no further |
| Polling.InvStep | services/telegram_listener/service.py:281-376 | arrivals, polls, lost replies, saves and stops all keep: every dispatchable update was dispatched or is still to be returned |
| Polling.AtMostOnce | services/telegram_listener/service.py:281-328 | within one life of the listener updates are dispatched by increasing id, so none twice |
| Polling.ExactlyOnce | services/telegram_listener/service.py:281-376 | in any run every dispatchable update below the poll position was dispatched and no other update ever was; without a stop each was dispatched once, in order |
| Polling.FullPollDeliversAll | services/telegram_listener/service.py:281-328 | a poll that returns all there is leaves no dispatchable update undispatched, whatever stopped before |
| Polling.OffsetsRise | services/telegram_listener/service.py:283-376 | only a stop lowers the offset, and only to the saved one, which never falls |
| Polling.SaveOutlastsStop | services/telegram_listener/service.py:330-376 | after a save, a stop leaves the offset where it was |
| Polling.UnsavedPollIsRepeated | services/telegram_listener/service.py:328-376 | a listener that stops between a poll and the save gets and dispatches the same updates again |
| Polling.SavedPollIsNotRepeated | services/telegram_listener/service.py:328-376 | after a save, a stop brings back no update that was dispatched since the listener last started |
| Versions.ParseDotted | shared/component_versions.py:46-50 | parsing the dotted decimal form of a non-empty list of naturals gives the list back if and only if they are below 10 to the power 4300, and raises otherwise |
| Versions.IncreasedIsStrictWeakOrder | shared/component_versions.py:53-54 | the order of versions, where it does not raise, is a strict weak order whose ties are exactly equal parsed tuples |
| Versions.IncreasedIff | shared/component_versions.py:53-54 | a dotted version increases another exactly when, after numbers they share, its number is the larger or the other's have ended |
| Versions.RunsSplit | shared/component_versions.py:46-50 | anything but a digit separates the numbers of a version |
| Versions.ParseTells | shared/component_versions.py:46-50 | a version is parsed into the numbers of its runs of digits, and into a single 0 when it has none |
| Versions.ChangeTells | shared/component_versions.py:59-66 | a change tells the version applied, the one to be applied, 0.0.0 for a missing one, and whether that is an increase, for agent, sheriff and secrets |
| Versions.DiffVersions | shared/component_versions.py:57-67 | the difference has exactly the three components, each with its two versions and whether it increased, and raises exactly when one of these versions cannot be read |
| Versions.AppliedVersions.Load | shared/component_versions.py:25-37 | a missing file or a missing component reads as 0.0.0 |
| Versions.SaveThenDiff | shared/component_versions.py:25-67 | after saving the target as applied no component shows as increased, and the comparison raises exactly when a version of the target cannot be read |

## Left out

- Ndjson: JSON encoding is assumed to be faithful and free of newlines (`Json.Faithful`); JSON itself is not modelled. Frames that cannot be encoded or decoded, such as one with a lone surrogate in the text of an exception, on which `encode_frame` raises and the server ends the connection, are thereby excluded.
- RpcRuns: timeouts, cancelled callers, connections lost for other reasons than a line that cannot be read, reconnecting, several connections, concurrent first calls of `start`, and handlers that keep emitting after they returned are not steps of the model; timeouts do break its invariant.
- Rpc: handlers are known by what they emit and return; what `meta` and `health` return is not modelled.
- GatewayRuns: a task cancelled while it waits on the condition is not a step; its id would stay in line. The journal file and what processing a message does are not modelled either.
- Updater.DrainLoop: a status reply that is an error frame, which the code reads as zero, is not distinguished from a reading of zero.
- Identifiers from uuid4 are taken to be fresh.
- Strings are sequences of Unicode scalar values and the file system encoding is UTF-8. Lone surrogates, on which encoding raises, are modelled in `RotatingLog` only.
- VaultRefinement.InitializeNeedsPassword: a master password with a lone surrogate, which is not empty and on which hashing raises, is not modelled.
- Mcp.CodexMCPClient.Request: starting and stopping the process, its error output and writes that fail are not modelled; the process's output is a given list of lines.
- RotatingLog.RotatingTextLog.Append: newlines are written as one byte, as they are outside Windows; where they become two, a text is written longer than it counts. A PermissionError, which ends the append silently, is not modelled; the standard library's rotating handlers are not part of this model.
- Vault.SecretsState.Initialize: debug mode, which stores hashes, and the migration of a legacy file are not modelled; hashing and encryption are ideal, and a single live instance is assumed.
- Vault.SecretsState.SetSecret: the typed accessors for provider, tokens and activation codes add nothing to set and get and are left out.
- Requests.SheriffRequestsService.ResolveInstance: of pending instances created in the same millisecond the model resolves the first in the table; SQLite does not promise which.
- Requests.SheriffRequestsService.CreateOrUpdate: one reading of the clock stands for the several that an operation takes; `search`, `get` and `boot_check` only read and are left out.
- Requests.SheriffRequestsService.ResolvePolicyItem: interleavings between its policy update and its catalog update are not modelled; catalog and policy agree after whole operations only.
- Policy.SheriffPolicyService.GetDecision: the approval gate with its pending callbacks is a separate small component and is left out.
- Tools.SheriffToolsService.ExecTool: calls between the services are taken to succeed. Whether the operating system finds and starts the program with what it is given, running it, its output, tainted outputs and their disclosure are not modelled; the outcome is the environment it would be given.
- Sessions.SessionRegistry.EnsureSession: keys with path separators and file systems that ignore case, which can make two keys share a file, are not modelled, nor are the summary files.
- Tasks.TaskStore.UpdateTask: changes to a task's id or session, which the keyword arguments would allow, are not modelled, nor is the history file.
- Manager.CodexSessionManager.SendMessage: prompts are opaque and the runtime is an oracle; that calls of one manager do not overlap is assumed, as is that its process is running.
- Polling.TelegramListenerService.PollBot: an update that makes the loop raise is not modelled; the updates before it would be dispatched again. Dispatching means that the handler's task was created, not that it finished. Tokens, webhooks and what the handlers do are left out.
- Versions.ParseDotted: digits outside ASCII, which the pattern also accepts, are not modelled.
- The scheduler, memory summaries, redaction, sandboxing, the installer and the command line are text, timing or I/O without state of this kind.
