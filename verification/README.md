# Counterlane control plane

A model of the parts of Counterlane that have to stay right under crashes, arbitrary event orders and partial failures,
and proofs about that model. `dafny verify dfyconfig.toml` verifies all of it.

| area | modules |
|---|---|
| verifier-gated controller and durable attempt journal | `Vgcl`, `VgclController` |
| one Codex turn over JSON-RPC, and the executor of an attempt | `JsonRpc`, `Turn`, `TurnTransparency`, `TurnCancellation`, `TurnStream`, `TurnNotifications`, `TurnRun`, `TurnExecutor` |
| the three layers together | `Composition` |
| escalation graph and successor | `Routes`, `Order`, `CapabilityGraph`, `CapabilityGraphBuilder`, `StrictSuccessor` |
| newline framing, commented JSON | `Framing`, `Jsonc`, `JsoncDocuments`, `JsoncTheorem` |
| promise-chain lock, MCP HTTP sessions | `KeyedLock`, `Sessions` |
| apply, verify, commit or roll back | `ApplyTransaction`, `ApplyOutcomes` |
| calibration index | `Folds`, `RouteKeys`, `RouteEvidence`, `Calibration`, `CalibrationIndex`, `IndexContents`, `IgnoredEvents` |
| quota, gates and ranking | `Ranking`, `Quota`, `Routing`, `RouteDecision` |

How the source's outside world appears:

- A crash is a `Crashed` status that ends an operation at once; an awaited step that can fail returns a `Status`, a `bool`
  or an `Option` chosen by `*`. The journal root keeps a ghost trace of what became durable and of what was sent. A
  statement about every prefix of a safe trace is a statement about every crash point of every history.
- Invocations of the controller on one journal root follow each other; the lock file is per run id. Run ids are new.
- The executor of an attempt is a connection of its own with one turn and at most one start call on it. What happens to
  the connection and to the turn, before and after the hook, is an arbitrary list of events; none of the other requests on
  the connection starts a turn. It calls the accounting hook at most once.
- Timers, aborts, responses, notifications and process exits are methods that may be called in any order the state allows.
- Hashes are injective: two states have the same hash when the hashed parts are equal. The size of a text in UTF-8 and
  the parser of an event are arbitrary functions.
- The comparison of timestamps by locale is an arbitrary total preorder, in which different strings may tie.
- Numbers are exact reals; counters and byte counts are unbounded integers.
- A session id is fresh. A request may name any session in the table, announced to its client or not.

Places where the code does not do what one might expect, each with an input that shows it and the exact condition:

- The report that content was lost can be replaced by a later error: by a cleanup error, and for an empty patch by an error
  while the staging copy is removed. Lost content goes unreported if and only if one of them occurs
  (`ApplyTransaction.LostWithoutReportIff`); `ApplyTransaction.CleanupCanHide` and `ApplyTransaction.StagingCanHide` are
  inputs for each.
- The id of a route joins its parts with colons, so two routes can share one, and deduplication keeps the one of lower
  objective even if only the other is admissible. `RouteDecision.ColonCollision` is an input that is left without a route.
  With colon-free parts and one proposal per route a route exists if and only if a scored candidate is admissible
  (`RouteDecision.SelectRoute`); any two routes that share an id can lose the admissible one
  (`RouteDecision.CollisionLosesRoute`).
- A turn that the transport ends by an error or exit, with no containment under way, is left without a close
  (`TurnRun.Run.OnCompletion`); `TurnRun.OrphanWitness` is such a run.
- Dropping trailing commas twice can drop more than dropping them once (`Jsonc.TrailingCommasNotIdempotent`,
  `Jsonc.TrailingCommasIdempotentIff`).
- The calibration index depends on the order of the events through `updatedAt`, if and only if different timestamps tie for
  the latest of a route (`CalibrationIndex.IndexIgnoresOrder`, `CalibrationIndex.IndexDependsOnOrder`), as a composed and a
  decomposed accent do (`CalibrationIndex.AccentsFollowOrder`).
- The count of ignored events depends on their order if and only if two contents of one id occur with different
  frequencies (`IgnoredEvents.IgnoredIgnoresOrder`, `IgnoredEvents.IgnoredDependsOnOrder`).
- Announcing an MCP session sets its count of active requests to zero, whatever is in flight. The count is exact if and only
  if nothing was in flight at that moment (`Sessions.McpHttpServer.SessionAgrees`), which holds as long as no request names a
  session before it is announced (`Sessions.McpHttpServer.Dispatch`); `Sessions.EarlyWitness` is a run in which one does.

## Model

| member | source | states |
|---|---|---|
| Vgcl.AccountingViewsAgree | src/runner/vgcl.ts:540-566 | the live and the re-read accounting are equal if and only if no attempt is between its send and its verification |
| Vgcl.PendingOnFields | src/runner/vgcl.ts:356-375 | a file blocks the next run if it cannot be read or is a record in any state but the terminal one |
| Vgcl.PendingAccounts | src/runner/vgcl.ts:508-566 | an unresolved file is reported with every attempt that may have been sent and was not verified as unresolved; an unreadable one as one unresolved attempt |
| Vgcl.CauseOnFields | src/runner/vgcl.ts:276-287 | the cause of an attempt by the fields of its result: none exactly if it passed an adequate check with success, a stop exactly if that fails and it was cancelled or interrupted, and each other cause |
| Vgcl.SafePrefix | src/runner/vgcl.ts:488-498 | a crash may cut a safe trace anywhere and leaves a safe trace |
| Vgcl.SendsAreAccounted | src/runner/vgcl.ts:248-256 | whatever was sent is owned up to, with its counts, by the record a later process would find |
| Vgcl.AtMostTwoSends | src/runner/vgcl.ts:377-384 | a run's sends are sends of distinct ordinals, at most two, in every safe trace |
| Vgcl.SendsWithinDurableCount | src/runner/vgcl.ts:414-422 | at no point does the durable model-attempt count fall short of the sends |
| Vgcl.SendFollowsDurableAuthorization | src/runner/vgcl.ts:414-422 | before every send stands the durable record that shows exactly this attempt as sent, with no later record of the run between them |
| Vgcl.DurableCountsOnce | src/runner/vgcl.ts:414-434 | every durable record of a new run has at most two attempts, each counted at most once |
| VgclController.JournalRoot.Replace | src/runner/vgcl.ts:488-497 | one atomic replacement; failing or dying inside it leaves the old or the new record |
| VgclController.FindPending | src/runner/vgcl.ts:356-375 | finds the first unresolved record in the order of the file names if there is one, unreadable files included, with its accounting |
| VgclController.Create | src/runner/vgcl.ts:321-347 | a durable planned record under the run's lock; a failed creation gives the lock back |
| VgclController.AttemptJournal.Reserve | src/runner/vgcl.ts:377-412 | refuses a third attempt and a closed record without any effect; otherwise adds the next ordinal, not yet sent |
| VgclController.AttemptJournal.MarkRequestSent | src/runner/vgcl.ts:414-422 | the attempt becomes the durable send that is about to happen, counted once |
| VgclController.AttemptJournal.MarkPreSendFailure | src/runner/vgcl.ts:424-434 | only an attempt that was not sent can be recorded as such, with both counts zero |
| VgclController.AttemptJournal.MarkTerminal | src/runner/vgcl.ts:436-452 | three persists; the attempt stays accounted through each of them and ends with its identity and its cause, which `Vgcl.CauseOnFields` says of the result |
| VgclController.AttemptJournal.MarkAcknowledgementUnknown | src/runner/vgcl.ts:454-462 | the attempt and the record become unresolved, the counts stay |
| VgclController.AttemptJournal.Finish | src/runner/vgcl.ts:464-469 | the record is closed, or left for reconciliation, with its terminal state |
| VgclController.AttemptJournal.Close | src/runner/vgcl.ts:475-480 | the lock is released, once |
| VgclController.RunReservedAttempt | src/runner/vgcl.ts:243-274 | at most one send, under the next ordinal, with its connection's frames noted; a result means a verified-terminal attempt, no result means never sent and failed, or possibly sent and left for reconciliation |
| VgclController.RunExecutor | src/runner/vgcl.ts:248-264 | runs the executor on a connection of its own; whatever happens on it, its turn/start frames are at most the sends of the attempt |
| VgclController.CrossSendBoundary | src/runner/vgcl.ts:248-256 | the boundary is crossed exactly when the hook's record is durable, and the start call is on the connection exactly then |
| VgclController.SettleFailure | src/runner/vgcl.ts:264-273 | an attempt without a result ends as never sent or as unknown, according to the boundary |
| VgclController.JudgeFirst | src/runner/vgcl.ts:129-181 | only a candidate defect with a strict successor leads to a second attempt; every other first result concludes the run |
| VgclController.RunAttempts | src/runner/vgcl.ts:116-185 | normal return: reserved = completed + unresolved, transport requests = model attempts, results = verifier runs, reconciliation if and only if one is unresolved, verdict by the last classified attempt, second attempt if and only if the first is a candidate defect with a strict successor, live = durable accounting |
| VgclController.ExecuteVgcl | src/runner/vgcl.ts:96-189 | with an unresolved record nothing is written or sent; otherwise the run settles as above with the executions' own results, only its own record is touched, the lock is released unless the process died, and it returns normally if no persist failed and no execution died; whatever was sent has its connection's frames noted wherever the run ends, and so has every attempt of a run that returns |
| VgclController.VerdictOnFields | src/runner/vgcl.ts:116-185 | by the fields of the results of every settled run: when it is verified, cancelled or failed and for which cause; a second attempt exactly after a first one that completed unspoilt, was judged adequately and did not pass, with a successor; the durable record says the same, with the identity of every returned attempt |
| VgclController.AtEveryCrashPoint | src/runner/vgcl.ts:96-189 | at every crash point of every history a run has at most two sends, all within its durable count |
| VgclController.Operate | src/runner/vgcl.ts:96-189 | any number of invocations, each finishing, throwing or dying anywhere: once a record is left unresolved there is no further event, so no send; every send has its connection's frames noted; what each invocation returned is settled by the record found after it, or says that an unresolved one blocks it; without a failed persist every invocation whose executions do not die returns |
| JsonRpc.JsonRpcClient.RequestOnce | src/codex/json-rpc.ts:107-154 | a fresh id; one frame if not aborted and writable, otherwise settled at once with nothing written |
| JsonRpc.JsonRpcClient.OnResponse | src/codex/json-rpc.ts:184-220 | settles exactly its pending id: a result with its value, an error object with its code, anything else as malformed; for any other id nothing changes |
| JsonRpc.JsonRpcClient.OnTimeout | src/codex/json-rpc.ts:120-124 | an armed timer settles its id and nothing else |
| JsonRpc.JsonRpcClient.OnAbort | src/codex/json-rpc.ts:126-130 | an attached listener settles its id and nothing else |
| JsonRpc.JsonRpcClient.RejectAll | src/codex/json-rpc.ts:241-247 | every pending id settles as failed; no entry, timer or listener is left |
| JsonRpc.Call.Attempt | src/codex/json-rpc.ts:80-87 | one attempt under a fresh id, none after the deadline |
| JsonRpc.Call.OnSettled | src/codex/json-rpc.ts:87-101 | only an overload, code -32001, of one of the three reads is retried, after 100 and 200 ms and the jitter, and only with attempts and time left |
| JsonRpc.Call.StableUnderOthers | src/codex/json-rpc.ts:107-154 | events of other requests never disturb a call's place in the table |
| JsonRpc.Call.BoundedFrames | src/codex/json-rpc.ts:26-31 | at most three frames for any call, and at most one for any but the three read methods |
| Turn.ProcessStays | src/codex/app-server.ts:259-440 | every notification keeps retained bytes equal to what is retained but for one protocol-failure warning, within 16 MiB, and the buffer within 512 entries and 8 MiB with an exact counter |
| Turn.RevealStays | src/codex/app-server.ts:296-301 | draining keeps the same budgets |
| TurnTransparency.LateIdIsTransparent | src/codex/app-server.ts:303-365 | for every input stream without an abort and every reveal point, with no violation before the reveal and no bound exceeded, the late machine ends as the one that knew the id from the start: output, usage, reroutes, completion, event count, and warnings as a multiset |
| TurnCancellation.LateAbortIsTransparent | src/codex/app-server.ts:346-365 | with aborts anywhere among the inputs, if neither machine fails, the late machine agrees with the early one on output, usage, reroutes, completion and event count, and on the warnings but for the one interrupt warning of each |
| TurnCancellation.LateAside | src/codex/app-server.ts:452-493 | a run with aborts that does not fail ends as the run without them, but for one interrupt warning and its bytes |
| TurnTransparency.OvertakesAll | src/codex/app-server.ts:281-301 | an event that does not wait may overtake everything that waits, up to the order of the warnings |
| TurnStream.StreamMeansItsEvents | src/codex/app-server.ts:303-440 | for every orderly stream that does not fail, wherever the id is revealed and aborts stand: the diff and the final message are the last ones sent for the turn, streamed texts, reroutes and usage those of its events in order, completion the first of its own or of a complaint, the event count and the warnings those received, and one interrupt warning after an abort |
| TurnStream.KnownTurnAmounts | src/codex/app-server.ts:267-440 | a turn known from the start ends as its events amount to if their text and reroutes stay within the bounds all the way, and otherwise it fails |
| TurnStream.WaitsOrFails | src/codex/app-server.ts:281-295 | while the id is unknown, what names a turn is kept for it if there is room in number and bytes, and otherwise fails the turn |
| TurnStream.SaidAtOnce | src/codex/app-server.ts:306-325 | a warning, or an error that names no turn, does not wait: it is said and counted at once, or exceeds the text bound |
| TurnStream.StartNamesTheTurn | src/codex/app-server.ts:347-359 | the start of the turn makes it known, with nothing left waiting, and interrupts it after an abort |
| TurnNotifications.Notifications.ProcessNotification | src/codex/app-server.ts:303-440 | the closure's updates are the value model's step, with cached sizes and streamed text kept in agreement |
| TurnNotifications.Notifications.LearnTurnId | src/codex/app-server.ts:296-301 | draining one by one while counting bytes down is revealing the id at once |
| TurnNotifications.Notifications.BufferNotification | src/codex/app-server.ts:281-295 | buffers within both bounds, or contains the failure |
| TurnNotifications.Notifications.ReserveAdditionalText | src/codex/app-server.ts:267-276 | takes bytes exactly when they fit, otherwise contains the failure and takes none |
| TurnNotifications.Notifications.UpdateDiff | src/codex/app-server.ts:367-380 | replaces the diff and its share of the budget, or keeps both |
| TurnNotifications.Notifications.ContainProtocolFailure | src/codex/app-server.ts:259-266 | the first failure alone warns, completes and closes |
| TurnNotifications.Notifications.Interrupt | src/codex/app-server.ts:452-468 | one interrupt and one warning for each turn id |
| TurnRun.Run.OnHook | src/codex/app-server.ts:523-528 | a start request goes out exactly when the accounting hook returned |
| TurnRun.Run.OnStartResponse | src/codex/app-server.ts:529-562 | a mismatch interrupts both ids and closes; a malformed response without a known turn closes; otherwise the buffer is drained, and a cancelled turn interrupted |
| TurnRun.Run.FailStart | src/codex/app-server.ts:613-625 | no known turn: closed and thrown; known turn: interrupted and awaited |
| TurnRun.Run.OnCompletion | src/codex/app-server.ts:590-598 | the turn may be left running if and only if the transport ended it with nothing observed, contained or closed |
| TurnRun.Run.OnTerminalCompletion | src/codex/app-server.ts:473-489 | after an interruption a completion without turn/completed closes the server |
| TurnRun.Run.OnTerminalTimeout | src/codex/app-server.ts:473-489 | after an interruption silence closes the server |
| TurnRun.Run.NoOrphanedTurn | src/codex/app-server.ts:473-624 | every run that has ended saw its turn end, or closed, or was ended by the transport itself |
| TurnRun.OrphanWitness | src/codex/app-server.ts:578-605 | a run with one start request that ends with the turn neither observed nor closed |
| TurnExecutor.Server.AfterHook | src/codex/app-server.ts:523-528 | the start call exists exactly if the hook returned |
| TurnExecutor.Server.HandleConnection | src/codex/json-rpc.ts:107-247 | responses, timers, aborts, other requests and the end of the transport settle what is theirs and leave every turn/start frame with the start call |
| TurnExecutor.Server.HandleAll | src/codex/app-server.ts:259-489 | any list of events, failed interrupt requests included, keeps turn, connection and start call in agreement, and none but the hook makes a start request; the turn processes every notification up to its exit, and nothing on the connection or after the exit changes it |
| TurnExecutor.Server.StartsOnce | src/codex/app-server.ts:523-528 | at most one turn/start frame on a connection, and none before the start call |
| Composition.StartsAreAccounted | src/runner/vgcl.ts:248-256 | a turn/start frame on the wire is owned up to by the durable record, as an attempt that was sent |
| Composition.WireWithinJournal | src/runner/vgcl.ts:248-273 | whenever a controller call ends, returning, throwing or dying: turn/start frames on the wire, durable model attempts, reserved attempts and two are in this order, and an attempt recorded as failed before its send has no frame |
| Composition.OperateOnWire | src/runner/vgcl.ts:96-189 | the same four-part bound for every run after any number of invocations, with the frames of every send noted |
| CapabilityGraph.NodeKeyInjective | src/routing/capability-graph.ts:38-49 | NUL-free parts make the node key injective |
| CapabilityGraph.EffortEdgesCover | src/routing/capability-graph.ts:64-86 | effort edges are exactly the covering pairs of each group's effort order |
| CapabilityGraph.FamilyEdgesLead | src/routing/capability-graph.ts:88-143 | a family edge exists exactly from luna to terra or terra to sol where the task reaches one of the thresholds, within a topology, to the least effort that is no less |
| CapabilityGraph.TopologyEdgesLead | src/routing/capability-graph.ts:111-132 | a topology edge exists exactly from single to ultra of a model for a parallelizable broad task, to the least effort that is no less |
| CapabilityGraph.EffortRanks | src/routing/capability-graph.ts:156-159 | the nine efforts are ranked from none to ultra, and no other has a rank |
| CapabilityGraph.EveryEdgeRaises | src/routing/capability-graph.ts:64-132 | every edge raises (effort rank, topology, family) lexicographically |
| CapabilityGraph.Acyclic | src/routing/capability-graph.ts:57-61 | no walk returns to its start, and none has more than 53 edges |
| CapabilityGraph.HigherEffortReachable | src/routing/capability-graph.ts:75-85 | every higher ranked effort of a group is reachable along its effort edges |
| CapabilityGraphBuilder.BuildCapabilityGraph | src/routing/capability-graph.ts:34-62 | the loops list exactly the specified nodes and edges, in key order |
| CapabilityGraphBuilder.AddHigherEffortEdges | src/routing/capability-graph.ts:64-86 | the chains of the sorted groups are the specified effort edges |
| CapabilityGraphBuilder.AddTargetEdges | src/routing/capability-graph.ts:88-132 | the two target passes add the specified edges |
| CapabilityGraphBuilder.GraphIgnoresOrder | src/routing/capability-graph.ts:38-62 | permuting the candidates does not change the graph |
| StrictSuccessor.SuccessorIsLeast | src/runner/vgcl.ts:192-216 | the choice is eligible and minimal in (credits, capability, key), and exists whenever any candidate is eligible |
| StrictSuccessor.SuccessorOnFields | src/runner/vgcl.ts:192-216 | if any admissible candidate is one edge above at the same speed and service tier with no weaker proof tier, the successor is such a one, and none such costs less, or as much with less capability |
| StrictSuccessor.SuccessorIgnoresOrder | src/runner/vgcl.ts:192-216 | permuting the candidates does not change the successor |
| StrictSuccessor.SuccessorIsStrictlyStronger | src/runner/vgcl.ts:191-216 | the successor is strictly above the current route in (effort, topology, family) |
| Framing.SplitJoins | src/mcp/server.ts:161-180 | the segments contain no newline (10) and joined with newlines give back the bytes |
| Framing.ReadBoundedStdioFrames | src/mcp/server.ts:136-189 | for every split into buffers the frames are the segments of the concatenated bytes, without the one carriage return (13) that may end each, and oversized exactly beyond the bound; no append ever makes more than the bound be held |
| Framing.Append | src/mcp/server.ts:147-156 | the held pieces are the open segment exactly as long as it fits, and with them the most ever held stays within the bound |
| Framing.LineSplitter.HandleStdoutChunk | src/codex/transport.ts:177-202 | the emitted lines are the segments received before the first oversized one, each without the one carriage return that may end it; an error is emitted exactly if there is an oversized one; lines are never taken back |
| Framing.LinesAreSegments | src/codex/transport.ts:177-202 | the lines of the closed segments are these segments, in order, up to the first that is too long |
| Framing.SplitterAgreesWithReader | src/codex/transport.ts:177-202 | the two framers agree up to the first oversized frame |
| Framing.OversizedStays | src/codex/transport.ts:184-190 | bytes after an oversized segment change nothing before it |
| Jsonc.StripJsonComments | src/core/utils.ts:278-336 | the scanning loop computes the comment-free text, or fails on an unterminated block comment |
| Jsonc.StripCommas | src/core/utils.ts:251-276 | the scanning loop with its lookahead drops exactly the commas before closers, outside strings |
| Jsonc.StrippedIsFree | src/core/utils.ts:278-336 | no comment opener is left outside strings, for any text |
| Jsonc.StripCommentsIdempotent | src/core/utils.ts:278-336 | stripping comments twice is stripping them once, for any text |
| Jsonc.OnlyCommasAreDropped | src/core/utils.ts:251-276 | the second pass changes nothing but commas outside strings |
| Jsonc.TrailingCommasNotIdempotent | src/core/utils.ts:251-276 | an input on which the second pass drops a comma each time |
| Jsonc.TrailingCommasIdempotentIff | src/core/utils.ts:251-276 | for any text: the second pass is idempotent if and only if nowhere outside strings a comma is followed, after white space, by another trailing comma |
| Jsonc.SpaceCharacters | src/core/utils.ts:269-272 | the white space skipped after a comma is exactly that of the regular expression class |
| JsoncDocuments.FirstPass | src/core/utils.ts:278-336 | on a decorated document the first pass keeps tokens and white space and turns comments into white space |
| JsoncDocuments.UnterminatedIsAnError | src/core/utils.ts:314-325 | an unterminated block comment is an error wherever it starts |
| JsoncTheorem.SecondPass | src/core/utils.ts:251-276 | on a comment-free document the second pass drops exactly the comma tokens before closers |
| JsoncTheorem.JsoncMeansItsDocument | src/core/utils.ts:245-249 | for every document of RFC 8259 section 2, decorated in any way, the two passes yield exactly its tokens, strings unchanged |
| KeyedLock.Lock.Enter | src/core/utils.ts:210-218 | a call queues behind the newest outstanding call on its key |
| KeyedLock.Lock.Resume | src/core/utils.ts:219-221 | an operation starts only when everything before it on its key is over |
| KeyedLock.Lock.Complete | src/git/worktree.ts:1136-1145 | returning and throwing both release, and the table entry goes exactly with the newest call |
| KeyedLock.Lock.MutualExclusion | src/core/utils.ts:210-226 | two operations on one key never run together |
| KeyedLock.Lock.OldestProceeds | src/core/utils.ts:219-224 | the oldest outstanding call on a key is running or can start |
| KeyedLock.Lock.ResumesInTurn | src/core/utils.ts:219-221 | a call can start exactly if every earlier call on its key is over |
| KeyedLock.TableMirrorsOutstanding | src/git/worktree.ts:1130-1144 | a key is in the table if and only if a call on it is outstanding |
| KeyedLock.Lock.Run | src/core/utils.ts:210-226 | any schedule is served by the promise chain exactly as by one queue for each key, with every invariant kept |
| Sessions.McpHttpServer.BeginInitialize | src/mcp/server.ts:364-384 | reserves a place exactly when there is one |
| Sessions.McpHttpServer.FinishInitialize | src/mcp/server.ts:388-406 | the session is announced exactly on success while still in the table, and counts from zero; otherwise it is removed |
| Sessions.McpHttpServer.Dispatch | src/mcp/server.ts:409-448 | the reply and the whole new state by session, version, and what is in flight on the session: a request id in flight is refused, a full session too, an admission adds one request in flight, a cancellation aborts exactly the request in flight under its id; if only announced sessions are named, no session has a request in flight when it is announced |
| Sessions.McpHttpServer.FinishRequest | src/mcp/server.ts:457-463 | each admitted request is released once, on its session, whether or not the session is still in the table; only its own controller goes, and the session counts as used now |
| Sessions.McpHttpServer.Delete | src/mcp/server.ts:289-300 | the session leaves the table and all its requests are aborted |
| Sessions.McpHttpServer.PruneExpiredSessions | src/mcp/server.ts:617-625 | exactly the expired sessions that count nothing go; none with an initialize under way, and one with requests in flight only if exactly as many were in flight when it was announced; the requests of the pruned sessions, and no others, are aborted |
| Sessions.McpHttpServer.Shutdown | src/mcp/server.ts:220-223 | the table is emptied and every request in flight on a session in it aborted, and no other |
| Sessions.McpHttpServer.SessionAgrees | src/mcp/server.ts:434-464 | an attached announced session has as many controllers as requests in flight, with distinct ids; its count is within the limit, and exact if and only if none was in flight when it was announced |
| Sessions.EarlyWitness | src/mcp/server.ts:388-394 | a session with one request in flight that counts none |
| ApplyTransaction.ApplyRun.Run | src/runner/single.ts:270-463 | the statements of the run and what they call compute the outcome function that the next rows speak of: checkout, durable result, error raised and exit |
| ApplyTransaction.ApplyRun.RollbackAppliedPatch | src/git/worktree.ts:529-577 | the two reverses with their checks compute the rollback function |
| ApplyTransaction.ApplyRun.VerifyOriginalTransaction | src/git/worktree.ts:592-680 | running, inspecting and restoring compute the verification function |
| ApplyTransaction.ApplyRun.ApplyPatchToOriginal | src/git/worktree.ts:464-514 | applying, certifying, verifying and rolling back compute the application function |
| ApplyTransaction.ApplyRun.Commit | src/runner/single.ts:314-371 | the durable result says applied exactly if the patch went in and its record was written |
| ApplyTransaction.RollbackKeeps | src/git/worktree.ts:529-577 | a rollback changes nothing but the working tree, and is reported as done only at its goal |
| ApplyTransaction.RollbackSucceedsIff | src/git/worktree.ts:529-577 | without a fault a rollback succeeds if and only if one of the two reverses reaches the goal |
| ApplyTransaction.VerdictMeansUnchanged | src/git/worktree.ts:592-680 | a verdict comes only from a verifier that left working, control and managed state as found; other errors leave it restored unless they say otherwise |
| ApplyTransaction.AppliedIsCertified | src/runner/single.ts:314-371 | a durable applied result means the certified patch is in and a verifier that changed nothing passed it |
| ApplyOutcomes.AppliedIff | src/runner/single.ts:270-371 | a patch is durably applied if and only if it is wanted, every step it needs works, it applies to the certified content and the verifier passes and leaves it alone |
| ApplyOutcomes.StartsOrStops | src/runner/single.ts:274-314 | a start that is not truthful changes nothing and leaves no result; a run that need not apply returns at once |
| ApplyOutcomes.RefusedIsTakenOut | src/git/worktree.ts:464-577 | whatever fails while taking back: a refused patch is taken out again and reported so, with the original content, if and only if one of the two reverses brings it back, and otherwise the failed rollback is reported |
| ApplyOutcomes.RefusedWithoutFault | src/git/worktree.ts:495-508 | the same where the verifier says no, or throws, and leaves the patched checkout alone, said of the three uses of the patch |
| ApplyOutcomes.UncommittedIsWithdrawn | src/runner/single.ts:338-371 | a patch whose result cannot be committed is withdrawn and reported so, with the snapshot, if and only if a reverse brings it back, an empty one if the state can be checked |
| ApplyTransaction.MutatingVerifierNeverReturns | src/git/worktree.ts:592-680 | a verifier that changes the patched checkout never lets the run return an applied patch |
| ApplyTransaction.FaultlessRunApplies | src/runner/single.ts:270-371 | without a fault a certified patch that the verifier passes and leaves alone is applied, durably |
| ApplyTransaction.ReturnedIsDurable | src/runner/single.ts:270-371 | what is returned is durable, and a return without applying leaves the checkout alone |
| ApplyTransaction.ControlIsKept | src/git/worktree.ts:464-680 | control and managed state survive every run whose error does not say otherwise |
| ApplyTransaction.UntouchedOnEarlyErrors | src/runner/single.ts:270-371 | an error from before the patch was touched leaves the whole checkout as it was, and so does an artifact rollback |
| ApplyTransaction.LostIsRaised | src/runner/single.ts:314-371 | where the result does not say applied, other content than the original is left only after a failed rollback or restoration |
| ApplyTransaction.LostWithoutReportIff | src/runner/single.ts:429-463 | lost content goes unreported if and only if a cleanup error or, for an empty patch, a failed removal of the staging copy replaced the report |
| ApplyTransaction.CleanupCanHide | src/runner/single.ts:429-463 | an input on which a cleanup error hides a failed rollback |
| ApplyTransaction.StagingCanHide | src/git/worktree.ts:580-590 | an input on which the failed removal of the staging copy hides a failed restoration |
| RouteKeys.KeyInjective | src/routing/calibration.ts:38-49 | the percent-encoded, bar-joined key is injective in its eight fields |
| RouteKeys.EncodeInjective | src/routing/calibration.ts:48-48 | percent-encoding of UTF-8 is injective |
| RouteKeys.KeptCharacters | src/routing/calibration.ts:48-48 | letters, digits and nine marks are kept as they are, and nothing else is |
| RouteKeys.KeySpelled | src/routing/calibration.ts:38-49 | the key is the eight encoded fields in the order of the source |
| RouteEvidence.CollectUnique | src/routing/calibration.ts:54-67 | the loop collects each id once, in order, with its first content, the ids seen with two contents and how many events were skipped |
| RouteEvidence.CollectionDescribes | src/routing/calibration.ts:54-66 | what is collected is the evidence: an id is conflicted if and only if it was seen with two contents |
| RouteEvidence.KeptIsAgreed | src/routing/calibration.ts:68-70 | what is kept lists exactly the evidence that no other content contradicts |
| Calibration.CalibratePermutes | src/routing/calibration.ts:86-113 | a route's calibration does not depend on the order of its observations, if the timestamps that tie for its latest are one |
| Calibration.UpdatedAtIsLatest | src/routing/calibration.ts:109-112 | the last timestamp after the sort is a latest one by locale |
| Calibration.P90IsPercentile | src/routing/calibration.ts:270-274 | the percentile is a sample with at least nine tenths at or below it and fewer than nine tenths below it |
| Calibration.CountsAddUp | src/routing/calibration.ts:92-94 | successes, failures and timeouts add up to the samples |
| CalibrationIndex.BuildCalibrationIndex | src/routing/calibration.ts:51-122 | the loops compute the index of the kept evidence, and the count of ignored events |
| CalibrationIndex.IndexIgnoresOrder | src/routing/calibration.ts:51-122 | permuting the events does not change the index, if the timestamps that tie for the latest of each route are one |
| CalibrationIndex.IndexDependsOnOrder | src/routing/calibration.ts:107-112 | otherwise some order of the same events does change it |
| CalibrationIndex.AccentsFollowOrder | src/routing/calibration.ts:107-112 | two timestamps that compare equal by locale, of which the later event's is taken |
| CalibrationIndex.IndexIgnoresReplay | src/routing/calibration.ts:57-66 | repeating events, any and anywhere, does not change the index, on the same condition |
| CalibrationIndex.ConflictedIdIsIgnored | src/routing/calibration.ts:63-70 | the index is that of the log without an id seen with two contents |
| CalibrationIndex.IndexedRoute | src/routing/calibration.ts:86-116 | the index entry of a route counts samples that are all its own, its counts add up to them, and its percentile is among them |
| IndexContents.IndexCountsEvidence | src/routing/calibration.ts:51-122 | a route is in the index exactly if uncontradicted evidence was observed on it and not cancelled; its samples, successes, timeouts and failures, and the samples of the whole index, are the numbers of that evidence |
| IndexContents.FiguresOfSamples | src/routing/calibration.ts:86-113 | mean duration, mean credits, success rate and sample variance are those of the samples |
| IgnoredEvents.SkippedCounts | src/routing/calibration.ts:57-66 | what is skipped are the events that do not serialise and the repetitions of each id's first content |
| IgnoredEvents.IgnoredIgnoresOrder | src/routing/calibration.ts:53-80 | if the contents of each id occur equally often, the count of ignored events does not depend on the order |
| IgnoredEvents.IgnoredDependsOnOrder | src/routing/calibration.ts:53-80 | otherwise some order of the same events is counted differently |
| Ranking.FallThrough | src/routing/router.ts:584-609 | falling through the differences compares component by component |
| Ranking.StableSortRanks | src/routing/router.ts:126-130 | the sorted list is a permutation in which nothing precedes what stands before it |
| Quota.DeriveQuotaState | src/routing/quota.ts:4-70 | exhausted if and only if some window is; otherwise, and among the exhausted, the first window under most pressure decides |
| Quota.LimitsAreWindows | src/routing/quota.ts:4-25 | the windows looked at are the primary and secondary ones of every bucket, each under the id of its bucket |
| Quota.StateOnFields | src/routing/quota.ts:41-70 | the state of the deciding window field by field: used, remaining, minutes until the reset, health, and a pressure between 0 and 1 |
| Quota.PressureGrows | src/routing/quota.ts:41-55 | more use of a window is more pressure |
| Quota.PressureOutsideReserve | src/routing/quota.ts:41-55 | outside the reserve, the pressure of a window that is due for its reset and of one that has only begun |
| Routing.ScoreCandidate | src/routing/router.ts:380-480 | the collected reasons are exactly those that hold, and none means admissible |
| Routing.AdmissibleOnFields | src/routing/router.ts:380-480 | exactly when a scored candidate is admissible, in estimates, proof tier, family, quota, effort, topology, speed, deadline and credits |
| Routing.SpentQuotaRejectsAll | src/routing/router.ts:406-414 | with the quota spent every candidate is rejected |
| Routing.DeduplicateCandidates | src/routing/router.ts:848-858 | for each id exactly the first candidate of least objective |
| RouteDecision.ComparatorIsRankKey | src/routing/router.ts:126-130 | the comparators order candidates as a lexicographic key does |
| RouteDecision.Decide | src/routing/router.ts:104-165 | the selected candidate is best, and admissible if and only if some candidate is; exactly with a hard constraint or a critical task the refusal, with every reason, takes the place of a diagnosis |
| RouteDecision.SelectRoute | src/routing/router.ts:537-548 | any exhausted window: no candidate is admissible and nothing may be executed; otherwise a route exists if and only if some kept candidate is admissible, and, with colon-free parts and one proposal per route, if and only if some scored candidate is |
| RouteDecision.BestWithoutUrgency | src/routing/router.ts:584-602 | without urgency no admissible route is better in credits, success, bad escape, duration, objective |
| RouteDecision.BestUnderUrgency | src/routing/router.ts:586-596 | under urgency no admissible route is better in objective, credits, success, bad escape |
| RouteDecision.BestForDiagnosis | src/routing/router.ts:604-609 | where nothing is admissible, the selected candidate is best in bad escape, success, credits, objective |
| RouteDecision.DistinctSurvive | src/routing/router.ts:848-858 | with distinct ids nothing is dropped |
| RouteDecision.CollisionLosesRoute | src/routing/router.ts:848-858 | any two routes that share an id can lose the admissible one to the other |
| RouteDecision.ColonCollision | src/routing/router.ts:104-165 | two models of a critical task whose ids collide through a colon: the admissible one is dropped and there is no route |
| Routing.RouteIdInjective | src/routing/router.ts:851-851 | colon-free parts are recovered from a route's id |

## Left out

- VgclController.ExecuteVgcl: does not model the failure capsule, reasons, details, timestamps and request hashes of the records, nor an error while the lock file is removed.
- VgclController.FindPending: a missing journal directory is an empty one; other errors of listing it are left out.
- JsonRpc.JsonRpcClient.OnResponse: requests from the server and notifications to it are left out, and so is which text an error carries.
- Turn.ProcessStays: the size of a text is an arbitrary function, so the sizes of the streamed pieces are added up, not the size of their concatenation.
- TurnRun.Run.OnStartResponse: warning texts are fixed messages without the ids and times the code puts into them.
- VgclController.RunExecutor: what an executor does besides its one turn (worktree, verifier, telemetry) is left out, and so is a second call of the hook, which throws.
- Framing.ReadBoundedStdioFrames: frames hold bytes; decoding them as UTF-8, errors of the input stream and bounds beyond the safe integers are left out.
- Jsonc.StripJsonComments: characters are Unicode scalar values, where the code scans UTF-16 units; no character it looks at needs two of them.
- KeyedLock.Lock.Enter: path resolution and case folding of the key are left out.
- Sessions.McpHttpServer.Dispatch: the results of the tool calls, headers, origins, tokens and body limits are left out; session objects are records in a list, in the order of their creation.
- ApplyTransaction.ApplyRun.Run: the cleanup's own repair of shared Git control state, telemetry and bookkeeping warnings are left out; the candidate's worktree does not change while the patch is applied.
- RouteKeys.EncodeInjective: lone surrogates, on which the encoder throws, are not characters of the model.
- CalibrationIndex.BuildCalibrationIndex: the build time is left out, and the standard deviation is represented by its square.
- Routing.ScoreCandidate: the estimates a candidate is scored with are inputs; the feature extraction and the scoring formulas are not part of this model.
- RouteDecision.Decide: enumeration of models, efforts, speeds and proof tiers is an input list, and the rationale is left out.
- Child processes, sockets, real timers, Git itself, the CLI, configuration, certificates and the meta controller are left out.
