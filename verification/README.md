# OpenAIDE App Server: a verified model

OpenAIDE's App Server keeps the state of Tasks, Projects and devices, and any number of clients keep
copies of it. This project models the parts of the server whose promises hold only over whole runs,
together with the client code at the other end of the wire, and proves those promises. It is one
Dafny project; `dafny verify dfyconfig.toml` checks all of it.

- **State synchronisation** (`TaskCopies`, `TaskContents`, `ChangeLog`, `Routing`, `StateStream`,
  `Replicas`, `StateSync`, `SyncRuns`, `SyncTheorems`, `SyncContents`, `SyncWitness`). Clients subscribe
  to scopes, get a baseline or a resume, and then events linked cursor to cursor. The server's stream
  and change log are classes proved against functions; the client's ingestion is the pure code it is in
  TypeScript. `SyncRuns` puts both into one step machine with a network that loses, repeats and
  reorders messages; `TaskContents` and `SyncContents` say what a client then reads, from the changes
  alone.
- **Clients, lifecycle and update barrier** (`ClientHub`, `HubRuns`, `Gateway`).
- **Workspace file index** (`FileIndex`, `IndexRegistry`): a non-atomic walk, a watcher and a single
  refresher interleaved, and an LRU registry that builds entries outside its lock.
- **Time** (`Calendar`, `Text`, `Timestamps`): civil dates and the texts of sections 5.6 and 5.7 of
  RFC 3339.
- **Remote devices** (`RemoteDevices`): invites, trust and a store whose writes can fail.
- **Search, logs and handles** (`NameSearch`, `ProjectFiles`, `Sanitizer`, `RevealRegistry`,
  `Attachments`, `AttachmentRuntime`).

The clock, fresh ids and keys, file contents, the walk of a directory, case folding and the result of
every write are parameters. `Prelude` holds the identifiers and list lemmas everything shares.

## Where the code falls short of the simple promise

Each of these has a lemma with a concrete or a general failing case and the exact condition.

- An event addressed to one client advances the cursor of a shared scope, so other subscribers of
  that scope see a gap (`SkipHappens`, `SkippedExactlyWhenAddressedElsewhere`). Task streams are safe.
- A client that follows a worktree repository is sent its own replaced snapshot and refuses it, so its
  next event no longer links (`ClientAcceptsPublishedEvents`, `WorktreeSnapshotIsRefused`,
  `WorktreeCopyLosesItsPlace`).
- A copy rebuilt from a resume and one taken from a baseline may disagree on whether the workspace
  exists (`AvailabilityMayDiffer`, `ResumeAndBaselineDisagree`, `ResumeMeetsBaseline`).
- Initializing over another client's connection leaves that client recorded but unanswerable
  (`InitializeStrandsExactlyTakenOver`).
- An event for a client in reconnect grace goes to a connection that no longer speaks for it
  (`EverySubscriberIsReachable`).
- An edit of `.git/info/exclude` changes what the index should list and is filtered out as metadata, and
  so is a change whose report fails (`UnreportedChangeLosesInvalidation`,
  `AlwaysRightExactlyWhenOrdinary`).
- A store write that fails after its rename leaves on file what memory refused
  (`DiskPartsExactlyAfterRename`, `RefusedPairingReachesTheFile`).
- A content search with more than 20 200 matches offers a cursor that is then refused
  (`SearchIsCompleteExactlyUpToLimit`, `LongSearchIsCutOff`).
- Object keys reach the log as they are (`PathKeySurvives`, `OutputIsWhollyClean`).
- Years before 0 are never read (`NegativeYearsAreRefused`), although the day arithmetic is right for
  them.

Two results are facts about one function for every argument, without a caller known to pass the failing
ones: the routing function and the client's tables disagree on two more kinds of event that the server
does not publish (`ClientAcceptsRoutedEvents`), and the change log loses its consecutive run when it is
handed an older revision again (`RunsSurviveUnlessRepublished`), which the one publisher of `SyncRuns`
never does.

## Model

| member | source | states |
|---|---|---|
| `TaskCopies.ChunkingIsInvisible` | packages/app-server-client/src/stateIngestionTask.ts:155-180 | a text streamed in any number of chunks leaves the chat exactly as the whole text in one append would |
| `TaskCopies.UpsertKeepsOrder` | packages/app-server-client/src/stateIngestionTask.ts:140-153 | an upsert replaces its message in place or adds it last; order and unique ids survive |
| `TaskCopies.ApplyPreservesDurableEquality` | packages/app-server-client/src/stateIngestionTask.ts:76-111 | two copies equal in their revisioned part accept the same changes and stay equal, whatever their transient fields |
| `TaskContents.TextIsAddedLast` | packages/app-server-client/src/stateIngestionTask.ts:176-180 | appended text is read after all the message's other text, and only a last text part takes it in |
| `TaskContents.ChatIsItsScript` | packages/app-server-client/src/stateIngestionTask.ts:116-174 | the whole chat from the script of changes alone: it applies if and only if text is only appended to messages that are there, the messages are the old or replacing ones and then every added one in order, and each is what the changes that name it made of it |
| `TaskContents.ReplacementStartsAfresh` | packages/app-server-client/src/stateIngestionTask.ts:124-125 | a replacement leaves exactly its chat, whatever came before |
| `TaskContents.FlagsFollow` | packages/app-server-client/src/stateIngestionTask.ts:129-174 | without a replacement the history's start stays and any change means there are messages |
| `TaskContents.AppendsAddInOrder` | packages/app-server-client/src/stateIngestionTask.ts:129-138 | after appends the messages are the old ones followed by the new ones in order |
| `TaskContents.OneFieldAltersItself` | packages/app-server-client/src/stateIngestionTask.ts:76-103 | a change that carries one field sets that field to the carried value and no other |
| `TaskContents.ChatAltersChatAlone` | packages/app-server-client/src/stateIngestionTask.ts:105-111 | a change that carries only chat changes alters only the chat |
| `TaskContents.CommittedIsItsChanges` | packages/app-server-client/src/stateIngestionTask.ts:76-111 | after any changes each of the thirteen fields is the last value carried for it, the chat is all their chat changes in one script, and nothing else has moved |
| `ChangeLogs.SinceListsEveryLaterRevision` | openaide-rs/app-server/src/state_sync/task_change_log.rs:113-143 | from an intact run the answer lists every later revision, in order and nothing else, and refuses exactly when one is no longer held |
| `ChangeLogs.TrimmedIsLongestSuffix` | openaide-rs/app-server/src/state_sync/task_change_log.rs:100-107 | the per-Task bound keeps the longest suffix that fits |
| `ChangeLogs.TaskChangeLog.constructor` | openaide-rs/app-server/src/state_sync/task_change_log.rs:58-74 | an empty log with exact byte counts |
| `ChangeLogs.TaskChangeLog.Record` | openaide-rs/app-server/src/state_sync/task_change_log.rs:76-111 | the whole new log: forget on removal, restart on a gap, trim to the Task bound, evict to the total bound |
| `ChangeLogs.TaskChangeLog.Append` | openaide-rs/app-server/src/state_sync/task_change_log.rs:85-109 | the recorded Task's new run and the exact change of the byte total |
| `ChangeLogs.TaskChangeLog.TrimTask` | openaide-rs/app-server/src/state_sync/task_change_log.rs:100-107 | the loop returns the longest suffix within the bound and its size |
| `ChangeLogs.TaskChangeLog.OldestOther` | openaide-rs/app-server/src/state_sync/task_change_log.rs:158-166 | the least recently recorded other Task that still holds changes, if there is one |
| `ChangeLogs.TaskChangeLog.EvictToTotalBound` | openaide-rs/app-server/src/state_sync/task_change_log.rs:156-177 | only as much goes as the total bound needs, least recently published Tasks first, the recorded Task last |
| `ChangeLogs.TaskChangeLog.Forget` | openaide-rs/app-server/src/state_sync/task_change_log.rs:145-149 | a removed Task leaves the log, and only it |
| `ChangeLogs.RunsSurviveUnlessRepublished` | openaide-rs/app-server/src/state_sync/task_change_log.rs:76-111 | for any call of the log, recording keeps every retained run consecutive if and only if it does not hand it an older revision again |
| `ChangeLogs.TaskChangeLog.Clear` | openaide-rs/app-server/src/state_sync/task_change_log.rs:180-186 | exactly that Task's entries go and exactly their bytes are freed |
| `ChangeLogs.TaskChangeLog.PopOldest` | openaide-rs/app-server/src/state_sync/task_change_log.rs:188-193 | exactly the oldest entry goes and exactly its bytes are freed |
| `Routing.RoutingIsPerScope` | openaide-rs/app-server/src/state_sync.rs:427-483 | who receives an event depends on the scope alone, unless it is addressed to one client; a Task scope never distinguishes clients |
| `Routing.ClientAcceptsOnlyRouted` | openaide-rs/app-server/src/state_sync.rs:427-625 | the server withholds nothing its subscriber's client would accept |
| `Routing.ClientAcceptsRoutedEvents` | packages/app-server-client/src/subscriptionScope.ts:50-144 | of all scope and payload pairs there could be, the client's own tables accept a routed event if and only if it is not one of three named disagreements |
| `Routing.ClientAcceptsPublishedEvents` | openaide-rs/app-server/src/protocol_edge/task_handlers/publication.rs:188-458 | of the pairs the server does publish, a subscriber's client refuses exactly the replaced snapshot on a worktree repository |
| `Routing.WorktreeSnapshotIsRefused` | openaide-rs/app-server/src/protocol_edge/server_request_handlers.rs:517-525 | that refusal happens: the server publishes and routes it, the client passes over it |
| `Routing.RoutedExactlyAsIntended` | openaide-rs/app-server/src/state_sync.rs:427-625 | payload by payload, the exact subscriptions an event reaches: the routing function agrees with a table turned the other way round |
| `Routing.TasksAreKeptApart` | openaide-rs/app-server/src/state_sync.rs:440-483 | an event of one Task reaches that Task's scopes only, and a scope a Task owns is reached by that Task's events only |
| `Routing.PublishedFindsItsFollowers` | openaide-rs/app-server/src/state_sync.rs:427-625 | whatever the server publishes about a Task, a list or a repository arrives at whoever follows it, and a replaced snapshot at its own client alone |
| `StateStreams.PresenceAnswersFromSubscriptions` | openaide-rs/app-server/src/state_sync.rs:76-87 | a Task has subscribers exactly when the subscription list says so |
| `StateStreams.JoinMirrors` | openaide-rs/app-server/src/state_sync.rs:47-54 | joining keeps the presence index the projection of the subscription list |
| `StateStreams.LeaveMirrors` | openaide-rs/app-server/src/state_sync.rs:56-67 | leaving keeps it, and leaves no empty entry |
| `StateStreams.ExpireMirrors` | openaide-rs/app-server/src/state_sync.rs:69-74 | dropping a client keeps it, and leaves no empty entry |
| `StateStreams.TaskSubscriptionPresence.ObserveUnsubscribed` | openaide-rs/app-server/src/state_sync.rs:56-67 | the index loses the client, and the Task if it was the last |
| `StateStreams.GroupByScope` | openaide-rs/app-server/src/state_sync.rs:220-232 | each matching scope once, with exactly its matching clients |
| `StateStreams.Emit` | openaide-rs/app-server/src/state_sync.rs:234-260 | every matched scope's cursor moves by one and every reachable match gets the event once, linked from the old cursor to the new |
| `StateStreams.EmitGroup` | openaide-rs/app-server/src/state_sync.rs:241-255 | each reachable client of one scope gets the event once, along the scope's one link |
| `StateStreams.StateStream.constructor` | openaide-rs/app-server/src/state_sync.rs:107-123 | an empty stream, every scope at cursor 0 |
| `StateStreams.StateStream.Subscribe` | openaide-rs/app-server/src/state_sync.rs:138-173 | the reply carries the scope's cursor and a resume or a baseline; list and presence change together, a failed read changes neither |
| `StateStreams.StateStream.Unsubscribe` | openaide-rs/app-server/src/state_sync.rs:175-192 | exactly that subscription goes, list and presence together |
| `StateStreams.StateStream.DropClientSubscriptions` | openaide-rs/app-server/src/state_sync.rs:281-286 | exactly that client's subscriptions go, list and presence together |
| `StateStreams.StateStream.PublishCommitted` | openaide-rs/app-server/src/state_sync.rs:194-260 | cursors advance exactly where the event reaches, deliveries are exact, a Task change is recorded even with no subscriber |
| `StateSync.IngestStaysFaithful` | packages/app-server-client/src/stateIngestionTask.ts:15-47 | any committed change leaves a faithful copy faithful: older ones are ignored, the next one applies, a later one asks for a resync |
| `StateSync.ReplayMissedIsFaithful` | packages/app-server-client/src/stateIngestionTask.ts:49-74 | replaying the consecutive missed changes never fails and gives the committed Task at the last of them |
| `SyncRuns.ResumeIsTrue` | openaide-rs/app-server/src/state_sync.rs:337-391 | a resume lists only committed changes and misses none that were published, also those published while nobody listened |
| `SyncRuns.EveryWorldIsTrue` | openaide-rs/app-server/src/state_sync.rs:138-260 | in every state of every run, with messages lost, repeated or reordered, each live copy ingested exactly what its scope published from its reply to its cursor, and a Task copy's contents are what those payloads make of what the reply gave it, no older than any change among them, and the committed Task at their revision |
| `SyncRuns.StepKeeps` | openaide-rs/app-server/src/state_sync.rs:138-260 | every step of server, store, network and clients keeps that |
| `SyncTheorems.SkippedExactlyWhenAddressedElsewhere` | openaide-rs/app-server/src/state_sync.rs:212-256 | a subscriber's cursor moves without it exactly when the event is addressed to another client that follows the same scope |
| `SyncTheorems.SkipHappens` | openaide-rs/app-server/src/protocol_edge/server_request_handlers.rs:499-527 | a concrete skip: two clients follow the Projects and one is sent its own snapshot |
| `SyncTheorems.ChainIsUnbroken` | openaide-rs/app-server/src/state_sync.rs:194-260 | a client that stays subscribed, reachable and unskipped is sent an event for every cursor since its baseline, without a gap |
| `SyncTheorems.TaskStreamsSkipNobody` | openaide-rs/app-server/src/state_sync.rs:427-483 | on a Task stream nobody is ever skipped, so the condition above is met |
| `SyncTheorems.ResumeStartsCurrent` | packages/app-server-client/src/stateIngestion.ts:59-70 | a copy rebuilt from a resume is current and has the server's transient fields |
| `SyncTheorems.OnlyTheLinkApplies` | packages/app-server-client/src/stateIngestion.ts:59-115 | in one step a copy stays, moves along the one event that links to its cursor, or is replaced by what a reply makes |
| `SyncTheorems.EveryCopyHasItsReply` | openaide-rs/app-server/src/state_sync.rs:138-173 | every Task copy a client holds was installed by a reply some subscribing step sent to that client |
| `SyncTheorems.SubscribedCopyStaysCurrent` | openaide-rs/app-server/src/state_sync.rs:194-260 | from any current start, following the stream of a kept subscription never asks for a resync and covers everything published |
| `SyncTheorems.HeldCopyIsCurrent` | openaide-rs/app-server/src/state_sync.rs:138-260 | while its client stays subscribed, the copy it holds in the run is the committed Task, covering everything published when the stream was at the copy's cursor |
| `SyncTheorems.HeldCopyHasItsWorld` | openaide-rs/app-server/src/state_sync.rs:138-260 | there always is such a moment between the reply and now |
| `SyncTheorems.CaughtUpCopyIsCommitted` | openaide-rs/app-server/src/state_sync.rs:194-260 | a held copy at the end of its stream is the committed Task once everything committed is published |
| `SyncTheorems.DeliveryMovesOrEndsTheCopy` | packages/app-server-client/src/stateIngestion.ts:72-115 | delivering an event of its stream to a client that stayed subscribed: the next one always moves its copy, the last one again changes nothing, any other ends the copy, so a lost event never goes unnoticed |
| `SyncTheorems.InOrderReceiptFollows` | packages/app-server-client/src/stateIngestion.ts:72-115 | whatever other traffic and repeats come in between, receiving a Task's events in order moves its copy along exactly what they carry |
| `SyncTheorems.WorktreeCopyLosesItsPlace` | packages/app-server-client/src/stateIngestion.ts:79-100 | a repository's follower passes over its own snapshot, so its next event no longer links |
| `SyncTheorems.CopiesMeet` | packages/app-server-client/src/stateIngestionTask.ts:15-47 | two copies that follow the same payloads hold the same Task once they cover the further one's start; on whether the workspace exists they agree if and only if a payload reset it or the changes between them left it so |
| `SyncTheorems.AvailabilityMayDiffer` | packages/app-server-client/src/stateIngestionTask.ts:49-111 | the disagreement happens: a lagging copy ingests an older word on the workspace that the further copy skips |
| `SyncTheorems.ResumeMeetsBaseline` | openaide-rs/app-server/src/state_sync.rs:337-391 | a client answered with a resume that stayed subscribed and ingested its stream holds the Task a baseline and the same events would have given it, with the exact condition for the workspace flag |
| `SyncContents.CaughtUpCopyIsItsChanges` | packages/app-server-client/src/stateIngestionTask.ts:15-111 | over any run, a copy that is caught up holds, field by field and message by message, what the committed changes say |
| `SyncContents.CaughtUpCopyListsEveryMessage` | packages/app-server-client/src/stateIngestionTask.ts:129-138 | over any run, if messages were only appended, a caught-up copy lists the first messages and then every appended one in the order of the commits |
| `SyncContents.TaskStreamsAreTheirOwn` | openaide-rs/app-server/src/state_sync.rs:465-480 | over any run, a Task's stream carries that Task's changes alone, each once and in the order of their revisions |
| `SyncContents.UpsertedRequestStaysInPlace` | packages/app-server-client/src/stateIngestionTask.ts:182-189 | an updated request takes the place of the first with its id and the others stay |
| `SyncContents.NewRequestComesLast` | packages/app-server-client/src/stateIngestionTask.ts:182-189 | a request under a new id comes last |
| `SyncContents.FollowedStateIsLatest` | packages/app-server-client/src/stateIngestionTask.ts:26-41 | after following any payloads the requests are the last listed with the updates since, and the history state is the one of the highest generation since the last whole Task, the later of two |
| `SyncContents.ResumeExactlyWhenHeld` | openaide-rs/app-server/src/state_sync.rs:337-391 | over any run, a subscriber is sent a resume if and only if it named a revision, the Task could be read, and that revision is current or every change published since is still held; otherwise the baseline or the read's error |
| `SyncWitness.StoryIsARun` | openaide-rs/app-server/src/state_sync.rs:138-391 | a client leaves a Task, a change that reports the workspace gone is committed, the workspace comes back, the client resumes and the change is published: eleven steps of the protocol, each one possible |
| `SyncWitness.ResumeAndBaselineDisagree` | openaide-rs/app-server/src/state_sync.rs:337-391 | that run meets every premise of ResumeMeetsBaseline and ends with the client's copy and a baseline followed by the same event disagreeing on whether the workspace exists |
| `ClientHubs.OneConnectionPerClient` | openaide-rs/app-server/src/client_lifecycle.rs:181-219 | in a consistent hub a client has at most one mapped connection |
| `ClientHubs.InitializeStrandsExactlyTakenOver` | openaide-rs/app-server/src/client_lifecycle.rs:181-219 | initializing leaves every connected client answerable if and only if the connection did not speak for another client |
| `ClientHubs.ClientHub.constructor` | openaide-rs/app-server/src/client_lifecycle.rs:172-179 | an empty hub |
| `ClientHubs.ClientHub.InitializeClient` | openaide-rs/app-server/src/client_lifecycle.rs:181-219 | the whole new hub; whether the client was there already |
| `ClientHubs.ClientHub.ObserveTransportClosed` | openaide-rs/app-server/src/client_lifecycle.rs:235-251 | the connection is unmapped and its client enters the reconnect grace |
| `ClientHubs.ClientHub.ExpireAfterReconnectGrace` | openaide-rs/app-server/src/client_lifecycle.rs:265-288 | removed exactly when its grace is over; whether it was the last |
| `ClientHubs.ClientHub.ExpireInactiveClients` | openaide-rs/app-server/src/client_lifecycle.rs:290-336 | both loops together make one sweep: exactly the silent enter grace, exactly the overdue go |
| `ClientHubs.ClientHub.OpenGrace` | openaide-rs/app-server/src/client_lifecycle.rs:290-315 | exactly the silent clients lose their connection and enter grace |
| `ClientHubs.ClientHub.RemoveAll` | openaide-rs/app-server/src/client_lifecycle.rs:316-336 | exactly the overdue clients are removed, each reported once |
| `ClientHubs.ClientHub.DetachClient` | openaide-rs/app-server/src/client_lifecycle.rs:338-348 | client and its connection go at once |
| `HubRuns.EveryHubIsMapped` | openaide-rs/app-server/src/client_lifecycle.rs:181-348 | in every reachable hub each connection names a present client that records it and is not in grace; the converse if no connection was taken over |
| `HubRuns.SeenClientStays` | openaide-rs/app-server/src/client_lifecycle.rs:253-336 | a client seen at t is not removed before t plus heartbeat timeout plus grace |
| `HubRuns.SweepTakesOnlySilentConnections` | openaide-rs/app-server/src/client_lifecycle.rs:290-315 | no sweep takes its connection before t plus heartbeat timeout |
| `HubRuns.ClosedClientStays` | openaide-rs/app-server/src/client_lifecycle.rs:235-251 | a closed transport gives the whole grace from the close |
| `HubRuns.EveryHubIsTimely` | openaide-rs/app-server/src/client_lifecycle.rs:181-348 | no deadline in any reachable hub lies further ahead than the policy allows |
| `HubRuns.SilentClientIsGone` | openaide-rs/app-server/src/client_lifecycle.rs:290-336 | a silent client is gone after two suitably late sweeps |
| `Gateways.AppLifecycle.constructor` | openaide-rs/app-server/src/app_lifecycle.rs:69-73 | starts Running |
| `Gateways.AppLifecycle.AdmitInitialize` | openaide-rs/app-server/src/app_lifecycle.rs:79-93 | Running and Draining admit and become Running, Stopping refuses and stays |
| `Gateways.AppLifecycle.RequestShutdown` | openaide-rs/app-server/src/app_lifecycle.rs:105-116 | always ends Stopping, planned only the first time |
| `Gateways.RequestEffects` | openaide-rs/app-server/src/protocol_edge.rs:333-373 | what any request does to hub, lifecycle and barrier at once: Stopping stays, an admitted initialize ends Running with no barrier, nobody else joins |
| `Gateways.EveryEdgeIsSettled` | openaide-rs/app-server/src/protocol_edge/server_request_handlers.rs:134-282 | in every reachable state the lifecycle drains exactly when the last client has gone |
| `Gateways.DrainingDecidesShutdown` | openaide-rs/app-server/src/protocol_edge/shared_gateway.rs:826-831 | the three-part shutdown condition is equivalent to Draining alone |
| `Gateways.StoppingIsForever` | openaide-rs/app-server/src/app_lifecycle.rs:79-116 | once Stopping, always Stopping, and no client is admitted again |
| `Gateways.BarrierHoldsEveryoneOut` | openaide-rs/app-server/src/protocol_edge.rs:333-373 | while a barrier stands its owner and attempt stay and no client joins |
| `Gateways.BarrierEndsByItsOwner` | openaide-rs/app-server/src/protocol_edge/client_handlers.rs:171-359 | only its owner ends it, by initializing or by aborting that attempt |
| `Gateways.RpcGateway.constructor` | openaide-rs/app-server/src/protocol_edge.rs:172-257 | a running gateway with no client, barrier or subscription |
| `Gateways.RpcGateway.Initialize` | openaide-rs/app-server/src/protocol_edge.rs:319-373 | version, barrier and lifecycle checks in that order, then the hub |
| `Gateways.RpcGateway.Detach` | openaide-rs/app-server/src/protocol_edge/server_request_handlers.rs:134-167 | the client and its subscriptions go together; the last one starts draining |
| `Gateways.RpcGateway.ExpireInactiveClients` | openaide-rs/app-server/src/protocol_edge/server_request_handlers.rs:207-265 | one sweep; the expired clients' subscriptions go with them |
| `Gateways.RpcGateway.DropAll` | openaide-rs/app-server/src/protocol_edge/server_request_handlers.rs:207-265 | exactly the expired clients' subscriptions are dropped |
| `Gateways.RpcGateway.PrepareUpdate` | openaide-rs/app-server/src/protocol_edge/client_handlers.rs:171-275 | a barrier is raised only for an initialized client, with no other owner present and no work going on that it may not stop |
| `Gateways.RpcGateway.CommitUpdate` | openaide-rs/app-server/src/protocol_edge/client_handlers.rs:277-321 | only the owner's own attempt is committed |
| `Gateways.RpcGateway.AbortUpdate` | openaide-rs/app-server/src/protocol_edge/client_handlers.rs:323-360 | only the owner's own attempt is lifted |
| `Gateways.EverySubscriberIsPresent` | openaide-rs/app-server/src/protocol_edge/server_request_handlers.rs:134-265 | in every reachable state each subscription belongs to a client the hub knows |
| `Gateways.EveryEdgeIsMapped` | openaide-rs/app-server/src/protocol_edge.rs:319-373 | the hub's maps agree in every reachable state of the whole gateway; connected clients are answerable unless a connection was taken over |
| `Gateways.EverySubscriberIsReachable` | openaide-rs/app-server/src/client_lifecycle.rs:419-426 | a subscriber's delivery goes to a connection that speaks for it only while it is not in reconnect grace, and exactly then unless a connection was taken over |
| `Gateways.AdmittedExactlyWhenFitting` | openaide-rs/app-server/src/protocol_edge.rs:319-426 | an initialize is accepted exactly when it names no version or the server's major with a minor no newer, the server is not stopping and no other client holds the barrier |
| `Gateways.EveryClientWasAdmitted` | openaide-rs/app-server/src/protocol_edge.rs:319-426 | over any run, every client the hub knows was admitted by an initialize of its own that fitted at that moment |
| `Gateways.RaisedExactlyWhenIdle` | openaide-rs/app-server/src/protocol_edge/client_handlers.rs:171-275 | a request raises the barrier exactly when its attempt is well formed, nobody else shares the server, and no work is going on or it may be stopped |
| `Gateways.EveryBarrierWasRaised` | openaide-rs/app-server/src/protocol_edge/client_handlers.rs:171-275 | over any run, a standing barrier was raised by such a request and has stood since under its owner and attempt |
| `Gateways.ReadyExactlyForTheOwner` | openaide-rs/app-server/src/protocol_edge/client_handlers.rs:171-275 | ready is answered exactly to the barrier's owner for its attempt, or to one who may raise it |
| `Gateways.SubscribedExactlySince` | openaide-rs/app-server/src/protocol_edge.rs:428-526 | over any run, a client is subscribed to a scope if and only if an accepted request subscribed it and since then it has neither unsubscribed nor gone |
| `Gateways.DetachedIsGone` | openaide-rs/app-server/src/protocol_edge/client_handlers.rs:102-127 | a detached client has neither record, connection nor subscription, and the others keep theirs |
| `Gateways.CheckedAfterGraceIsGone` | openaide-rs/app-server/src/client_lifecycle.rs:265-288 | a client checked after its grace is gone in the same sense; checked before, everything stays |
| `Gateways.SweptIsGone` | openaide-rs/app-server/src/client_lifecycle.rs:290-336 | a sweep leaves nothing of a client whose grace is over |
| `Gateways.GoneUntilInitialized` | openaide-rs/app-server/src/protocol_edge.rs:319-426 | over any run, a client that is gone stays gone until it initializes again |
| `FileIndex.AtMostOneRefresher` | openaide-rs/app-server/src/workspace_file_index.rs:235-265 | the compare-and-exchange admits one refresher at a time |
| `FileIndex.EveryStateIsSound` | openaide-rs/app-server/src/workspace_file_index.rs:167-265 | the invariant of every interleaving of disk changes, watcher reports, searches and refreshers, whatever the watcher filters out |
| `FileIndex.NoLostInvalidation` | openaide-rs/app-server/src/workspace_file_index.rs:174-265 | in every interleaving an index neither dirty nor refreshing nor failed is wrong at most about counted changes still to be reported and about changes since the last walk began that the watcher does not count, although the walk is not atomic and a refresh may give up |
| `FileIndex.NextWalkSeesEverything` | openaide-rs/app-server/src/workspace_file_index.rs:223-233 | a walk that begins after an uncounted change makes up for it |
| `FileIndex.AlwaysRightExactlyWhenCounted` | openaide-rs/app-server/src/workspace_file_index.rs:174-221 | over all runs with changes of some kind an index at rest is always right if and only if the watcher counts every change of that kind that can alter the listing |
| `FileIndex.UncountedChangeSlips` | openaide-rs/app-server/src/workspace_file_index.rs:174-193 | any change it does not count can leave an index at rest with a wrong listing |
| `FileIndex.ExcludeEditIsUnreported` | openaide-rs/app-server/src/workspace_file_index.rs:218-221 | an edit of .git/info/exclude changes what is listed and is filtered out |
| `FileIndex.UnreportedChangeLosesInvalidation` | openaide-rs/app-server/src/workspace_file_index.rs:174-187 | a concrete run in which that edit leaves an index at rest with a wrong listing |
| `FileIndex.ReportMarksExactlyOrdinary` | openaide-rs/app-server/src/workspace_file_index.rs:173-187 | a report marks the index if and only if it is no read and names a path outside .git, also next to Git paths and outside the root; a read, a failure and Git paths alone never do |
| `FileIndex.AlwaysRightExactlyWhenOrdinary` | openaide-rs/app-server/src/workspace_file_index.rs:173-221 | over all runs with changes of some kind an index at rest is right if and only if every such change that can alter the listing is reported as a write outside .git |
| `FileIndex.SearchPutsItRight` | openaide-rs/app-server/src/workspace_file_index.rs:223-265 | from every reachable state with a dirty index nobody refreshes, one search and an undisturbed walk lead to a clean index that lists exactly the files |
| `FileIndex.WalkIsRepeatedWhenDisturbed` | openaide-rs/app-server/src/workspace_file_index.rs:223-233 | a walk disturbed by a counted report is done again, up to three walks; the third listing is stored and the mark stays |
| `FileIndex.AtMostThreeWalks` | openaide-rs/app-server/src/workspace_file_index.rs:223-233 | in every reachable state no refresh is beyond its third walk |
| `FileIndex.WalkMaySeeEither` | openaide-rs/app-server/src/workspace_file_index.rs:267-312 | a file that changes during the walk may be listed either way |
| `IndexRegistry.Registry.constructor` | openaide-rs/app-server/src/workspace_file_index.rs:68-77 | an empty registry |
| `IndexRegistry.Registry.Lookup` | openaide-rs/app-server/src/workspace_file_index.rs:125-139 | idle entries go, a registered folder is touched and returned |
| `IndexRegistry.Registry.Oldest` | openaide-rs/app-server/src/workspace_file_index.rs:152-156 | a least recently used folder |
| `IndexRegistry.Registry.Install` | openaide-rs/app-server/src/workspace_file_index.rs:141-163 | the folder's registered index wins over the one built meanwhile; otherwise room is made and it is registered |
| `IndexRegistry.Registry.MakeRoom` | openaide-rs/app-server/src/workspace_file_index.rs:151-160 | only as many of the least recently used folders go as the cap needs |
| `IndexRegistry.Registry.Forget` | openaide-rs/app-server/src/workspace_file_index.rs:117-123 | exactly that folder goes |
| `IndexRegistry.EveryRegistryIsBounded` | openaide-rs/app-server/src/workspace_file_index.rs:125-163 | for all interleavings of searches that build outside the lock the registry stays within its cap |
| `IndexRegistry.RivalBuildersAgree` | openaide-rs/app-server/src/workspace_file_index.rs:147-150 | two searches that built one folder return the same index while the first is registered |
| `IndexRegistry.ReturnedIndexIsRegistered` | openaide-rs/app-server/src/workspace_file_index.rs:125-163 | the index a search returns, found, taken from a rival or its own, is the one registered for its folder at that moment |
| `IndexRegistry.RegisteredIndexStays` | openaide-rs/app-server/src/workspace_file_index.rs:125-163 | a folder's index never changes while the folder stays registered |
| `IndexRegistry.SearchesShareTheIndex` | openaide-rs/app-server/src/workspace_file_index.rs:125-163 | all searches that return while their folder stays registered return the same index, whoever built it |
| `IndexRegistry.KeptExactlyWhileUsed` | openaide-rs/app-server/src/workspace_file_index.rs:125-138 | over any run, a lookup keeps a registered index if and only if its last use lies within the idle time |
| `IndexRegistry.OneOldestMakesRoom` | openaide-rs/app-server/src/workspace_file_index.rs:147-164 | over any run, registering drops nothing while there is room and otherwise exactly one index, a least recently used one |
| `Calendar.DaysFromCivilCounts` | openaide-rs/app-server/src/time.rs:104-112 | the closed arithmetic with truncating division equals counting days year by year and month by month, for all years |
| `Calendar.NextDayIsOneMore` | openaide-rs/app-server/src/time.rs:95-112 | the next civil day has the next number and 1970-01-01 has 0 |
| `Calendar.DayNumbersOrderDates` | openaide-rs/app-server/src/time.rs:95-112 | day numbers order dates strictly and tell them apart |
| `Calendar.EveryDayHasADate` | openaide-rs/app-server/src/time.rs:104-112 | every integer is some date's number |
| `Timestamps.AcceptedFieldsAreValid` | openaide-rs/app-server/src/time.rs:23-93 | only meaningful fields are accepted, no leap second |
| `Timestamps.InstantsOrderFields` | openaide-rs/app-server/src/time.rs:23-66 | at equal offsets milliseconds order exactly as the fields do, and tell them apart |
| `Timestamps.AcceptedTextsAreOrdered` | openaide-rs/app-server/src/time.rs:23-66 | the same for any two accepted texts: they order as their fields do, and share an instant only if their fields are equal |
| `Timestamps.PrintedFieldsReadBack` | openaide-rs/app-server/src/time.rs:23-93 | canonical text reads back to the fields it was printed from, with Z, no zone or a numeric offset |
| `Timestamps.PrintedInstantReadsBack` | openaide-rs/app-server/src/time.rs:12-66 | and to their instant |
| `Timestamps.EpochReadsBack` | openaide-rs/app-server/src/time.rs:12-21 | a decimal epoch reads back to itself |
| `Timestamps.TextAndEpochAgree` | openaide-rs/app-server/src/time.rs:12-66 | canonical text and the decimal epoch of its instant are the same time |
| `Timestamps.ShiftedOffsetIsTheSameInstant` | openaide-rs/app-server/src/time.rs:60-93 | shifting offset and local time together leaves the instant unchanged |
| `Timestamps.NegativeYearsAreRefused` | openaide-rs/app-server/src/time.rs:23-40 | every accepted text has a year of at least 0, and a leading minus is never accepted |
| `Timestamps.FractionsRoundDown` | openaide-rs/app-server/src/time.rs:23-66 | a fraction of any length is read as thousandths rounded down; an empty one or one that is not all digits is refused |
| `Timestamps.WholeSeconds` | openaide-rs/app-server/src/time.rs:23-66 | seconds without a fraction have no milliseconds |
| `Timestamps.OffsetsAreTwoAndTwo` | openaide-rs/app-server/src/time.rs:68-93 | an accepted numeric offset is two digits, a colon and two digits after the last sign, and the time is what stands before it |
| `RemoteDevices.ConstantTimeEq` | openaide-rs/app-server/src/remote_devices.rs:582-589 | the loop over all bytes decides plain equality |
| `RemoteDevices.DifferenceIsZeroWhenEqual` | openaide-rs/app-server/src/remote_devices.rs:582-589 | the folded differences are zero if and only if the bytes are equal |
| `RemoteDevices.RemoteDeviceService.constructor` | openaide-rs/app-server/src/remote_devices.rs:124-148 | an unreadable file is not trusted and not replaced |
| `RemoteDevices.RemoteDeviceService.CreateInvitation` | openaide-rs/app-server/src/remote_devices.rs:343-376 | the whole new state; the key is stored before the invite exists |
| `RemoteDevices.RemoteDeviceService.CancelInvitation` | openaide-rs/app-server/src/remote_devices.rs:378-384 | the invite goes, and an unused key if that can be stored |
| `RemoteDevices.RemoteDeviceService.Redeem` | openaide-rs/app-server/src/remote_devices.rs:196-227 | the whole new state and every rejection in the code's order |
| `RemoteDevices.RemoteDeviceService.ApproveJoinRequest` | openaide-rs/app-server/src/remote_devices.rs:406-432 | the whole new state; nothing in memory changes unless the write succeeded |
| `RemoteDevices.RemoteDeviceService.RemoveDevice` | openaide-rs/app-server/src/remote_devices.rs:434-463 | the whole new state; the last device takes the key with it unless an invite is pending |
| `RemoteDevices.RemoteDeviceService.DeviceDisconnected` | openaide-rs/app-server/src/remote_devices.rs:266-301 | one fewer; the last stamps the device if that can be stored |
| `RemoteDevices.CallsChangeTrustByWriting` | openaide-rs/app-server/src/remote_devices.rs:196-463 | every call changes memory and file by its one attempted write and by nothing else |
| `RemoteDevices.MemoryIsLastWritten` | openaide-rs/app-server/src/remote_devices.rs:196-463 | over any run with failing writes memory is the last value the store reported as written |
| `RemoteDevices.RefusedPairingReachesTheFile` | openaide-rs/app-server/src/remote_devices/store.rs:81-84 | that parting is real: an approval reported as failed can be on file |
| `RemoteDevices.EveryStateIsCoherent` | openaide-rs/app-server/src/remote_devices.rs:196-498 | in every reachable state ids are unique, a listed device or a pending invite implies a key, counted devices have an open connection, and so for the file |
| `RemoteDevices.TrustHasACause` | openaide-rs/app-server/src/remote_devices.rs:196-463 | a device is trusted if and only if an approval or redemption succeeded for it and no removal has since |
| `RemoteDevices.RedemptionsNeverOutnumberInvites` | openaide-rs/app-server/src/remote_devices.rs:196-227 | successful redemptions plus the pending invite never exceed the invites created |
| `RemoteDevices.InviteIsGoodForTenMinutes` | openaide-rs/app-server/src/remote_devices.rs:343-376 | an invite is redeemed exactly with its own secret and within ten minutes |
| `RemoteDevices.FileIsLastRenamed` | openaide-rs/app-server/src/storage/atomic.rs:11-29 | over any run the file holds what the last write to get past its rename put there |
| `RemoteDevices.DiskPartsExactlyAfterRename` | openaide-rs/app-server/src/remote_devices/store.rs:81-84 | over any run memory and file differ if and only if that write was reported as failed and holds something else than the last one reported as done |
| `RemoteDevices.ConnectionsAreCounted` | openaide-rs/app-server/src/remote_devices.rs:229-301 | over any run the count is the number of connections still open, and a device has an entry exactly while it has one |
| `RemoteDevices.LabelIsLastNoted` | openaide-rs/app-server/src/remote_devices.rs:303-307 | over any run a protocol connection is labelled with the device it was last noted for, until that device's last connection closes or it is removed |
| `RemoteDevices.PairingNeedsTheEdge` | openaide-rs/app-server/src/remote_devices.rs:343-351 | without a network edge no invite exists and no call trusts a device |
| `RemoteDevices.CutToBytes` | openaide-rs/app-server/src/remote_devices/pairing_code.rs:94-99 | the loop back to a character boundary finds the longest prefix of at most 64 bytes |
| `RemoteDevices.LabelsFit` | openaide-rs/app-server/src/remote_devices/pairing_code.rs:94-104 | a stored label has at most 64 bytes and no control character, and one that already does is kept |
| `RemoteDevices.PairingRecordsTheDevice` | openaide-rs/app-server/src/remote_devices.rs:549-574 | pairing records the device under its cleaned labels, never empty and at most 64 bytes, and leaves every other device alone |
| `RemoteDevices.LastCloseStampsTheDevice` | openaide-rs/app-server/src/remote_devices.rs:266-301 | only the last close stamps the device, a failed write costs only the stamp, and no connection label outlives it |
| `RemoteDevices.CountIsOpensLessCloses` | openaide-rs/app-server/src/remote_devices.rs:229-301 | from the calls alone: while nobody asks to remove the device and no close comes without an open, the count is the opens less the closes |
| `RemoteDevices.RedemptionIsDecidedByTheLiveInvite` | openaide-rs/app-server/src/remote_devices.rs:196-227 | over any run, the answer to every redemption: no invite unless one was made that no cancel, redemption, expiry or newer invite has ended, and then its age, its secret and the write decide |
| `RemoteDevices.CancelledInviteIsDead` | openaide-rs/app-server/src/remote_devices.rs:378-384 | after a cancel no redemption succeeds until another invite is made, whatever is paired and however the write ended |
| `RemoteDevices.RedemptionUsesTheLastInvite` | openaide-rs/app-server/src/remote_devices.rs:196-227 | a redemption that succeeds uses the secret of the invite made last, in time, with no cancel, redemption or expiry since |
| `RemoteDevices.AvailableOnceAttached` | openaide-rs/app-server/src/remote_devices.rs:343-351 | over any run, inviting and approving are unavailable exactly until a network edge was attached |
| `NameSearch.InOrderIsEmbedding` | openaide-rs/app-server/src/project_files.rs:313-319 | the greedy scan succeeds if and only if the visible query characters embed at increasing positions |
| `NameSearch.InOrderSpells` | openaide-rs/app-server/src/project_files.rs:313-319 | a successful scan yields the positions |
| `NameSearch.SpelledIsInOrder` | openaide-rs/app-server/src/project_files.rs:313-319 | taking the first occurrence never misses an embedding |
| `NameSearch.RankIsBestTier` | openaide-rs/app-server/src/project_files.rs:285-310 | a path is listed if and only if the whole path embeds the query, under the best tier it fits |
| `NameSearch.SortOrders` | openaide-rs/app-server/src/project_files.rs:263-265 | the ranked list is in order |
| `NameSearch.WalkOrderIsInvisible` | openaide-rs/app-server/src/project_files.rs:279-283 | equal collections of matches sort to the same list: the order is total |
| `NameSearch.ListedBestFirst` | openaide-rs/app-server/src/project_files.rs:264-283 | of two listed names the first has the better tier, in one tier the shorter path, and then comes first in the alphabet |
| `ProjectFiles.ListedLinesMatch` | openaide-rs/app-server/src/project_files.rs:243-252 | a file's listing names exactly its matching lines |
| `ProjectFiles.ScanLines` | openaide-rs/app-server/src/project_files.rs:243-257 | the loop collects the window of matches and stops at a page and one more |
| `ProjectFiles.ScanFiles` | openaide-rs/app-server/src/project_files.rs:199-262 | the walk collects the same window of all matches, whether or not it stops early |
| `ProjectFiles.SearchContent` | openaide-rs/app-server/src/project_files.rs:160-277 | the page at cursor c is items c to c+200 of all matching lines, with a next cursor if and only if there are more |
| `ProjectFiles.RankFiles` | openaide-rs/app-server/src/project_files.rs:199-221 | every file the bounded walk visits is ranked |
| `ProjectFiles.SearchNames` | openaide-rs/app-server/src/project_files.rs:263-275 | the same paging over the ranked names |
| `ProjectFiles.Search` | openaide-rs/app-server/src/project_files.rs:160-277 | blank, oversized and too-far requests, and the page of every other |
| `ProjectFiles.Page` | openaide-rs/app-server/src/project_files.rs:149-159 | the same paging over a directory listing |
| `ProjectFiles.PagesGatherAll` | openaide-rs/app-server/src/project_files.rs:149-159 | following every cursor of a listing collects it whole, once and in order |
| `ProjectFiles.SearchIsCompleteExactlyUpToLimit` | openaide-rs/app-server/src/project_files.rs:168-170 | a search can be read to its end if and only if it has at most 20 200 matches; the next cursor is offered and then refused |
| `ProjectFiles.NameSearchIsComplete` | openaide-rs/app-server/src/project_files.rs:199-203 | a name search always can |
| `ProjectFiles.NameSearchIgnoresWalkOrder` | openaide-rs/app-server/src/project_files.rs:186-188 | the names listed do not depend on where the walk met them |
| `ProjectFiles.OneFileMatches` | openaide-rs/app-server/src/project_files.rs:223-257 | a readable file all of whose lines match gives a search as many matches as it has lines |
| `ProjectFiles.LongSearchIsCutOff` | openaide-rs/app-server/src/project_files.rs:168-170 | one file with 20 201 matching lines is enough: following every cursor offered does not collect them all |
| `ProjectFiles.NameSearchListsBestFirst` | openaide-rs/app-server/src/project_files.rs:218-270 | the same of the paths a name search returns, ranked with or without folding as the query asks |
| `ProjectFiles.NameSearchListsTheFiles` | openaide-rs/app-server/src/project_files.rs:285-319 | a name search lists exactly the visited files whose path holds the query's visible characters in order, as typed or both folded |
| `ProjectFiles.ContentSearchListsTheLines` | openaide-rs/app-server/src/project_files.rs:171-255 | a content search lists exactly the visited lines that hold the query, as typed or both folded, cut to 500 characters |
| `ProjectFiles.IncompleteExactlyWhenPassedOver` | openaide-rs/app-server/src/project_files.rs:199-242 | a listing is called incomplete exactly when some item was not reached or could not be looked at |
| `ProjectFiles.WalkEndsForAReason` | openaide-rs/app-server/src/project_files.rs:199-203 | at most 20 000 items, none past the deadline, none read past 64 MiB, and the walk ends early for these reasons only |
| `ProjectFiles.PagesAreOf200` | openaide-rs/app-server/src/project_files.rs:149-158 | a page is the 200 entries from its cursor or what is left, and the next cursor is offered exactly while something is left |
| `Sanitizer.SplitUndoesJoin` | openaide-rs/app-server/src/logging.rs:180-191 | words joined by single spaces split back into themselves |
| `Sanitizer.SanitizedWords` | openaide-rs/app-server/src/logging.rs:180-191 | word for word, the output has the input's word or the mark |
| `Sanitizer.MarkIsHarmless` | openaide-rs/app-server/src/logging.rs:193-225 | the mark is neither path-like nor sensitive |
| `Sanitizer.OnlyCleanIsKept` | openaide-rs/app-server/src/logging.rs:129-225 | a value is left alone if and only if it is already clean |
| `Sanitizer.SanitizingIsIdempotent` | openaide-rs/app-server/src/logging.rs:129-225 | sanitizing twice is sanitizing once, for every JSON value |
| `Sanitizer.PathsAreRedacted` | openaide-rs/app-server/src/logging.rs:193-208 | an absolute path in a text, with a drive or not and however quoted, becomes the mark in its place |
| `Sanitizer.OutputIsClean` | openaide-rs/app-server/src/logging.rs:129-150 | no word of any output text is path-like or sensitive, and a sensitive key holds a boolean or the mark |
| `Sanitizer.OutputIsWhollyClean` | openaide-rs/app-server/src/logging.rs:133-147 | keys included, the output is clean if and only if every key that is not dropped with its value was harmless |
| `Sanitizer.PathKeySurvives` | openaide-rs/app-server/src/logging.rs:134-145 | a path used as a key reaches the log |
| `Sanitizer.SecretsAreMarked` | openaide-rs/app-server/src/logging.rs:129-178 | a member's value becomes the mark exactly when its key holds one of the fourteen words in any case, does not end in one of the five safe suffixes and the value is no boolean; every other value is only sanitized |
| `Sanitizer.WordsAreMarked` | openaide-rs/app-server/src/logging.rs:180-224 | word by word, the mark replaces exactly the quoted absolute paths and the words that hold one of the nine listed words in any case |
| `RevealRegistry.ShellFileRevealRegistry.constructor` | openaide-rs/app-server/src/shell_file_handles.rs:37-39 | an empty registry |
| `RevealRegistry.ShellFileRevealRegistry.RegisterLocalFile` | openaide-rs/app-server/src/shell_file_handles.rs:41-68 | the whole new registry; the eviction loop ends because every target is queued |
| `RevealRegistry.ShellFileRevealRegistry.ConsumeForClient` | openaide-rs/app-server/src/shell_file_handles.rs:70-88 | only the owner's handle is handed out, and then gone |
| `RevealRegistry.RegisterAtMostEvictsOldest` | openaide-rs/app-server/src/shell_file_handles.rs:52-66 | registering drops nothing, or the oldest one when full |
| `RevealRegistry.EveryRegistryIsAWindow` | openaide-rs/app-server/src/shell_file_handles.rs:41-88 | the queue is always the handles issued since some point that were not consumed, without duplicates and at most 256 |
| `RevealRegistry.RecentHandlesAreLive` | openaide-rs/app-server/src/shell_file_handles.rs:62-66 | one of the last 256 handles issued is live if and only if it was not consumed |
| `RevealRegistry.OlderGoesFirst` | openaide-rs/app-server/src/shell_file_handles.rs:62-66 | while a handle lives, every younger unconsumed one does |
| `RevealRegistry.HandedOutOnce` | openaide-rs/app-server/src/shell_file_handles.rs:70-88 | a handle is handed out at most once |
| `RevealRegistry.OnlyTheOwnerReceives` | openaide-rs/app-server/src/shell_file_handles.rs:41-88 | and only to the client it was issued to, for the file it was issued for |
| `Attachments.PruneIsExact` | openaide-rs/app-server/src/attachment_runtime.rs:606-621 | pruning takes exactly the expired handles no open reservation holds |
| `Attachments.AcceptedExactlyWhenUsable` | openaide-rs/app-server/src/attachment_runtime/handles.rs:189-223 | a request is accepted if and only if it names usable handles of its owner, each once |
| `Attachments.StepKeepsSound` | openaide-rs/app-server/src/attachment_runtime.rs:442-502 | every call keeps the invariant |
| `Attachments.EveryReservationIsLive` | openaide-rs/app-server/src/attachment_runtime.rs:606-621 | in every reachable state a handle is reserved if and only if it is live and held by an open reservation, and by one only |
| `Attachments.NumbersAreNeverReissued` | openaide-rs/app-server/src/attachment_runtime.rs:231-246 | an id names the same attachment of the same owner for ever, and a handle that is gone stays gone |
| `Attachments.SentIsSpent` | openaide-rs/app-server/src/attachment_runtime/reservation.rs:53-71 | a committed send's handles never come back |
| `Attachments.ReservedHandleIsTakenExactlyBy` | openaide-rs/app-server/src/attachment_runtime.rs:467-502 | a reserved handle is taken by its own send or its owner's departure and by nothing else |
| `Attachments.RollbackLeavesNothing` | openaide-rs/app-server/src/attachment_runtime.rs:363-372 | whatever others do meanwhile, a failed restore leaves none of its handles except one another send holds |
| `Attachments.ReleasedAreGone` | openaide-rs/app-server/src/attachment_runtime/handles.rs:76-89 | after a release, an id of the batch is live only if another owner has it or a send reserved it |
| `Attachments.ReleaseSparesReserved` | openaide-rs/app-server/src/attachment_runtime/handles.rs:82-84 | no release takes a reserved handle or a reservation |
| `Attachments.HandleIsTakenExactlyBy` | openaide-rs/app-server/src/attachment_runtime.rs:442-503 | the steps that take a handle, exactly: its send, its owner going or letting it go, and any call after its time unless a send has reserved it |
| `Attachments.DeadlineMovesExactlyBy` | openaide-rs/app-server/src/attachment_runtime/handles.rs:17-58 | a handle that stays keeps owner, name and target, and its deadline moves exactly when its send is reserved, its composer is refreshed or its client is heard of |
| `Attachments.RefusalSaysWhy` | openaide-rs/app-server/src/attachment_runtime/handles.rs:284-293 | a refusal is about the first handle that cannot be used and gives the reason that applies to it |
| `AttachmentRuntimes.AttachmentRuntime.constructor` | openaide-rs/app-server/src/attachment_runtime.rs:124-129 | an empty runtime |
| `AttachmentRuntimes.AttachmentRuntime.RegisterHandle` | openaide-rs/app-server/src/attachment_runtime.rs:218-247 | prunes, then registers under the next number |
| `AttachmentRuntimes.AttachmentRuntime.ReleaseResources` | openaide-rs/app-server/src/attachment_runtime/handles.rs:60-110 | the new state and every outcome; a repeated id is released once |
| `AttachmentRuntimes.AttachmentRuntime.ReserveForSend` | openaide-rs/app-server/src/attachment_runtime/handles.rs:189-249 | all or nothing: the first refusal, or every handle reserved and its time extended |
| `AttachmentRuntimes.AttachmentRuntime.CheckHandles` | openaide-rs/app-server/src/attachment_runtime/handles.rs:205-223 | the first refusal in the request's order |
| `AttachmentRuntimes.AttachmentRuntime.MarkReserved` | openaide-rs/app-server/src/attachment_runtime/handles.rs:225-234 | exactly the requested handles are reserved and extended |
| `AttachmentRuntimes.RestoredNumbers` | openaide-rs/app-server/src/attachment_runtime.rs:300-374 | a restore uses one fresh number per file, none per image |
| `AttachmentRuntimes.AcceptInlineImages` | openaide-rs/app-server/src/attachment_runtime.rs:536-574 | accepted if and only if every image is valid and all together fit in 8 MiB |
| `AttachmentRuntimes.AttachmentRuntime.RestoreItems` | openaide-rs/app-server/src/attachment_runtime.rs:312-361 | the loop restores exactly the items before the first bad one, in order and under fresh ids |
| `AttachmentRuntimes.AttachmentRuntime.RestoreQueued` | openaide-rs/app-server/src/attachment_runtime.rs:300-374 | success keeps the order within files and within images under fresh ids; failure names the first bad item and gives the others back |
| `AttachmentRuntimes.FailedRestoreLeavesNothing` | openaide-rs/app-server/src/attachment_runtime.rs:363-372 | a failed restore leaves handles and reservations as they were, but for what expired meanwhile |
| `AttachmentRuntimes.FailedRestoreFromReachable` | openaide-rs/app-server/src/attachment_runtime.rs:363-372 | the same from every reachable state, whatever sends are open |
| `AttachmentRuntimes.RestoreBringsEverythingBack` | openaide-rs/app-server/src/attachment_runtime.rs:300-404 | a restored message comes back whole and in order: every image, and for every other item a handle of the owner that stands for the same thing under consecutive numbers |

## Left out

- Everything under `apps/`, the SSH and process code, the sockets and the HTTP transport: foreign calls, little logic of their own.
- Wire types and JSON encoding: used as datatypes only.
- The snapshots of scopes other than Tasks: their contents are opaque payloads, since the client replaces them whole; whether the client can take such a payload is a free choice of each step.
- The bodies of baselines: a baseline is the committed Task at the moment of the read; how the server assembles it is not modelled.
- 64-bit overflow of cursors, revisions, clocks and counters: integers are unbounded, except the invite's saturating expiry and the 128-bit epoch.
- ChainIsUnbroken: takes as a condition that each publication finds a delivery for the client; EverySubscriberIsPresent shows that the hub has one, and whether it arrives is the network's choice.
- NoLostInvalidation: starts from a listing that is accurate when the watcher is armed, up to reports still to come; changes before arming and the freshness of a search that loses the race for the refresh are not claimed.
- The fuzzy ranking of the file index, the walk itself and ignore rules: library code, given as a file list.
- Timestamps.PrintedFieldsReadBack: covers the canonical texts; of other accepted spellings, FractionsRoundDown and OffsetsAreTwoAndTwo cover fractions and offsets, and AcceptedFieldsAreValid and AcceptedTextsAreOrdered the rest.
- The text form of pairing codes and the drawing of keys and secrets.
- The kind of network path of a connected device, the access state and the commands sent to the network edge: notifications without state of their own.
- Search: the time limit is an item count at which the time runs out, and case folding is any function; following cursors assumes that the walk is the same for every page.
- Page: the order of a directory listing (folders first, then by path) and the failing directory reads are not modelled.
- Git changes and diffs, path resolution and symbolic links in the file viewer: file-system calls.
- Writing log lines, rotation and the fallback to standard error.
- Embedded candidates and file-browser entries of the attachment runtime: two more maps of the runtime that expire as handles do; nothing reserves their entries and no send depends on them.
- RestoreQueued: runs without interleaving; RollbackLeavesNothing covers what other calls do between its steps.
- AcceptInlineImages: decoding and base64 are not modelled; each image arrives with the result of its check.
- HandedOutOnce: random handle ids are taken to be distinct.
- Worktrees, agents, terminals, settings, task recovery and the project list: mostly single-branch facts.
