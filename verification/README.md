# Verification of the Coder VS Code extension's core

A Dafny model of the parts of the extension that are hard to get right by reading one
function at a time, with machine-checked proofs about them. `dafny verify dfyconfig.toml`
checks everything. The table under "Model" lists the main results first and the methods and
supporting lemmas after them.

## What is modelled

**Telemetry, from the event to the export.** `LocalJsonlSink` buffers serialized events,
drops the oldest on overflow, coalesces flushes, rolls files over and writes one header per
file. `SinkProtocol` is its state machine, split at every await, `SinkTheorems` what it owes its
callers; `LocalJsonlSinks` is the class with its fields, proved to follow it. `WireFormat`, `FileNames` and `Calendar` print and read
lines, names and dates, and `WireReading` says which lines the parser accepts. `Export` streams files and merges sessions, `DateRanges` prunes by
date, and `EndToEnd` composes all of it: what was written is what is exported. `Pruning` compares
the export of a range with that of all time, `StraySegments` says what becomes of a first flush
that strays, and `Retention` is the deletion of old files.

**The reconnecting WebSocket.** `SocketProtocol` is the state machine over method calls, socket
events, timers, and any number of factory calls and certificate refreshes in flight;
`ConnectionLedger` is the telemetry it keeps; `ReconnectingWebSockets` is the class;
`SocketTheorems` states what holds in every reachable state, `SocketOutcomes` what each event
does to one.

**SSH.** `Substrings` counts and replaces, `SshBlocks` finds and rewrites a deployment's block
inside arbitrary text, `SshMerge` merges and parses options, `SshConfigs` is the class that
builds the block, `SshProperties` computes what a host gets from a config, `SshPatterns` says what
patterns match and lines say, `SshUpdates` what a host gets after a block was replaced, and
`Authority` prints and parses SSH authorities.

**Protocols of the session.** `DeploymentProtocol`, `DeploymentTheorems`, `DeploymentEffects` and
`DeploymentManagers` are deployment sign-in and its races; `Readiness` and `ReadinessTheorems` are
the wait for a workspace; `Retry`, `RetryTheorems` and `RetryClient` are the nested interceptors
that re-send requests.

A call that is suspended at an await is a value in the state, and the environment finishes
pending calls in any order, so a statement about a run is about every interleaving.

## Where the code does not do what one would expect

Each of these is a theorem with the exact condition, and the model keeps the code as it is.

- A reader of the authority expects any host to survive; a host that ends in an odd number of
  dashes, or a workspace with exactly one dot and no agent, does not (`Authority.RoundTripExactly`;
  `Authority.DashExample`).
- `#seedFromDisk` looks at segment 0 only. After a rollover, restarting the extension host in
  the same session on the same day writes before later rows or adds a second header
  (`SinkProtocol.FirstFlushInOrderExactly`, `SinkProtocol.RestartSafeExactly`;
  `SinkProtocol.RolledOverExample`). What is written behind a second header is stored and never
  exported (`StraySegments.StrayFlushInvisible`); what goes to segment 0 is exported too early
  (`StraySegments.StrayFlushReadEarly`).
- One measurement that is not finite makes its row unreadable (`WireFormat.RowReadsBackExactly`)
  and with it the rest of its file (`EndToEnd.BadRowEndsFile`), so the export is complete exactly
  when no stored event has one (`EndToEnd.StoredIsExported`).
- A date before the year 100 in a custom range is taken for one of the 1900s
  (`Calendar.DateTextReadsBackExactly`).
- A file is dated when it is flushed. An event buffered across midnight can be pruned away
  (`DateRanges.PruningSafeExactly`), and the export of a range is the selection from the full one
  exactly when no skipped file holds such an event (`Pruning.PrunedExportExactly`).
- The comment on DISCONNECTED says the user must call `reconnect()`. A certificate refresh that
  was pending resumes as well (`SocketTheorems.LeavesDisconnectedExactly`;
  `SocketTheorems.RefreshUndoesDisconnect`).
- Two factory calls in flight can leak a socket (`SocketTheorems.RunLeaksExactly`,
  `SocketTheorems.StepLeaksExactly`; `SocketTheorems.LeakExample`).
- A token update that is pending at a logout can sign the deployment in again
  (`DeploymentTheorems.LogoutExactly`; `DeploymentTheorems.LateUpdateReturns`).
- An empty user value does not remove a default that the deployment or the CLI has a say on
  (`SshMerge.EmptyUserValueRemovesExactly`; `SshMerge.DefaultComesBack`).
- An empty `SetEnv` below a non-empty one leaves a blank behind (`SshMerge.SetEnvAddsUpExactly`).
- A block with a `$` reference that replaces an old block does not always go in as it stands; one
  that is appended does (`SshBlocks.UpdateVerbatimExactly`, `SshBlocks.UpdateRewrites`).
- Options that a user puts below the block's end marker, before the next Host line, are read as
  the block's own and override it (`SshUpdates.ReplacedBlockApplies`).

## Assumptions

JSON is taken at the level of values: the text encoding is faithful. An append happens fully
or not at all, `stat` is truthful, no other session uses the same slug, and the UTC date one
sink sees does not go back. `Date.parse` is a parameter; dates are those of the years 0 to 9999
of the Gregorian calendar. Sockets deliver their events as later steps. Secret storage applies
writes in the order they are issued. Custom properties of a request's config survive its copying.

## Model

| member | source | states |
|---|---|---|
| EndToEnd.WrittenIsMerged | src/telemetry/export/files.ts:64-85 | with no overflow and no failed flush, in any merge with other sessions the events of this session are the written ones in write order, each file's up to its first without a wire form: all of them if and only if every event has one |
| EndToEnd.WrittenIsExported | src/telemetry/sinks/localJsonlSink.ts:96-266 | with no overflow and no failed flush, what was written is what is exported, if and only if every event has a wire form; otherwise each file gives its events up to the first without one |
| EndToEnd.StoredIsExported | src/telemetry/sinks/localJsonlSink.ts:96-266 | for any orderly run of the sink from any state of its files the files hold the earlier events and then every stored one, in write order, and exporting all time yields each file's events up to its first without a wire form: all of them if and only if every event has one |
| EndToEnd.BadRowEndsFile | src/telemetry/wireFormat.ts:180-227 | one row of an event without a wire form ends its file, whatever follows: what is read are the events before it |
| Pruning.PrunedExportExactly | src/telemetry/export/files.ts:32-85 | in any directory the merged export of a range shows, for every session, the range's selection of what the merged full export shows of it, in the same order, if and only if no skipped file reads an event of the range |
| EndToEnd.PrunedIsFilteredFull | src/telemetry/export/files.ts:47-53 | when every event read from a file happened on the file's date, the pruned export of a session is the filtered full export |
| EndToEnd.GroupIsCanonical | src/telemetry/export/files.ts:33-62 | from any listing order the group of a session is its files in (day, segment) order |
| Export.MergeStreams | src/telemetry/export/files.ts:64-85 | the merge terminates; each stream's events come out exactly once in the stream's own order, whatever its clock did, each a least one of those next in their streams; the output is sorted by (timestamp, session id) when each stream is |
| Export.MergedTimesRise | src/telemetry/export/files.ts:56-85 | the merged output never goes back in time while no session's stream does |
| SinkProtocol.Conservation | src/telemetry/sinks/localJsonlSink.ts:96-227 | over any run, lines accepted = stored + in the batch + buffered + dropped by overflow + discarded by failed flushes; at most one run is in progress and at most one is queued |
| SinkProtocol.KeptInOrder | src/telemetry/sinks/localJsonlSink.ts:96-227 | what is stored, then the batch, then the buffer is an in-order subsequence of the accepted lines |
| SinkProtocol.FlushSettles | src/telemetry/sinks/localJsonlSink.ts:116-131 | when the promise of a flush settles, no line buffered at the call is still in the buffer |
| SinkTheorems.ShutdownStoresAllExactly | src/telemetry/sinks/localJsonlSink.ts:95-227 | a sink disposed of at any time and run to its end has stored every line ever written to it, in order, if and only if no write met a full buffer and no flush failed |
| SinkTheorems.LosesNothingExactly | src/telemetry/sinks/localJsonlSink.ts:95-227 | a run loses a line if and only if one of its writes met a full buffer or one of its flushes failed |
| SinkTheorems.DisposalFlushesAll | src/telemetry/sinks/localJsonlSink.ts:133-146 | whatever happens after a disposal nothing more is accepted, and once the queued runs are used up the buffer is empty |
| SinkTheorems.FullBatchIsQueued | src/telemetry/sinks/localJsonlSink.ts:107-114 | with a fixed batch size no full batch of a live sink ever waits for the timer |
| SinkTheorems.RolledOverOnlyWhenFull | src/telemetry/sinks/localJsonlSink.ts:244-260 | over any orderly run with a fixed limit the sink begins segment 0 of a new day, or the next segment of the day when the batch would have taken the last file over the limit, and no other file |
| SinkProtocol.RunFiled | src/telemetry/sinks/localJsonlSink.ts:229-266 | across rollovers, day changes, failed appends and reconfiguration: the files on disk are the session's files in (day, segment) order, each begins with a header and has no other, the tracked size is the size on disk, and the rows on disk are the earlier ones and then the stored ones in order |
| SinkProtocol.RunBounded | src/telemetry/sinks/localJsonlSink.ts:244-260 | with a fixed limit no file exceeds the larger of the limit and its first append, which is header plus one batch |
| SinkProtocol.FilesOnlyGrow | src/telemetry/sinks/localJsonlSink.ts:229-266 | over any run whatsoever no line on disk is ever moved or overwritten |
| SinkProtocol.FirstFlushInOrderExactly | src/telemetry/sinks/localJsonlSink.ts:261-266 | the first flush of an activation lands after all earlier rows under a single header if and only if no numbered segment was left for the day |
| SinkProtocol.RestartSafeExactly | src/telemetry/sinks/localJsonlSink.ts:261-266 | a restart on the day of the last append meets the condition of `FirstFlushInOrderExactly` if and only if that append went to segment 0 |
| StraySegments.StrayFlushInvisible | src/telemetry/sinks/localJsonlSink.ts:229-266 | with segment 0 full the stored batch is never exported: over any range the export yields what it did before, whatever is appended to that file later |
| StraySegments.StrayFlushReadEarly | src/telemetry/sinks/localJsonlSink.ts:229-266 | with room in segment 0 the batch is exported right behind the rows of segment 0, before those of the day's later segments |
| WireFormat.RowReadsBackExactly | src/telemetry/wireFormat.ts:98-227 | under its own header the row of an event reads back as that event if and only if its timestamp parses and its numbers are finite; otherwise the line is an error |
| WireFormat.HeaderReadsBack | src/telemetry/wireFormat.ts:115-215 | the header line reads back as its session, with the current schema version |
| WireReading.RowReadExactly | src/telemetry/wireFormat.ts:180-227 | whoever wrote it, a line after a header reads as an event if and only if it carries every field of the event as the writer gives it, leaves out what the event has not, and the event has a wire form; key order, further keys and repeated keys are free |
| WireReading.HeaderReadExactly | src/telemetry/wireFormat.ts:201-215 | whoever wrote it, a first line reads as a header if and only if it carries every field of it, with a positive whole version and a timestamp that parses |
| FileNames.FormatReadsBackExactly | src/telemetry/localJsonlFiles.ts:11-37 | a printed name reads back as its three parts if and only if the date has the ISO shape and the session is non-empty and dot-free |
| Calendar.DateTextReadsBackExactly | src/util/date.ts:10-34 | a printed date always parses, and reads back as its own midnight if and only if its year is at least 100; an earlier year comes back in the 1900s |
| DateRanges.CustomRangeExactly | src/telemetry/export/range.ts:76-101 | a custom range of two date strings exists if and only if the first is not after the second, and accepts an instant if and only if the string of its UTC date lies between them |
| DateRanges.PruningSafeExactly | src/telemetry/export/range.ts:103-134 | no range that accepts an event skips a file of some day if and only if that day is the event's UTC date |
| Retention.RetentionKeeps | src/telemetry/sinks/localJsonlSink.ts:294-320 | every file is expired, evicted or kept; the expired ones and no others are past the age limit; kept files are within the total; nothing evicted is newer than anything kept; no shorter oldest-first prefix would do |
| SocketProtocol.RunInv | src/websocket/reconnectingWebSocket.ts:62-580 | every interleaving of calls, socket events, timers, attempts and refreshes keeps the invariant of state, ledger, backoff and sockets |
| SocketTheorems.StateDecidesSocketAndTimer | src/websocket/reconnectingWebSocket.ts:62-165 | a retry timer is live exactly in AWAITING_RETRY; CONNECTED has a current socket that was not closed; IDLE, DISCONNECTED and DISPOSED have neither |
| SocketTheorems.BackoffExactly | src/websocket/reconnectingWebSocket.ts:423-454 | the backoff is min(initial * 2^k, max), k the retries since the last opening or resume, if and only if k > 0 or the initial delay is within the maximum |
| SocketTheorems.LongestDelayReported | src/websocket/reconnectingWebSocket.ts:430-442 | whatever the random numbers, no retry waits longer than the larger configured delay plus its jitter, and the longest wait there was is the one that resolved cycles or the open one report |
| SocketTheorems.LedgerConserved | src/instrumentation/websocket.ts:58-190 | in every reachable state the log reads back as one path of transitions to the current state; a connection is open in it if and only if the state is CONNECTED; cycles started = cycles resolved + the open one; reset never discards anything |
| SocketTheorems.OpenedAndDroppedAlternate | src/instrumentation/websocket.ts:88-130 | opened and dropped reports strictly alternate over any run |
| SocketTheorems.DisposedIsForever | src/websocket/reconnectingWebSocket.ts:555-580 | after disposal nothing pending causes a transition, report, handler call, timer or attempt; sockets that still arrive are closed; onDispose has run once |
| SocketTheorems.LeavesDisconnectedExactly | src/websocket/reconnectingWebSocket.ts:250-270 | in a reachable state DISCONNECTED is left if and only if reconnect() or close() is called or a pending certificate refresh succeeds |
| SocketTheorems.OneRefreshPerCycle | src/websocket/reconnectingWebSocket.ts:457-484 | over a whole run every certificate refresh is begun in a later cycle than the one before it, cycles being counted by the openings and resumes in the log |
| SocketTheorems.RunLeaksExactly | src/websocket/reconnectingWebSocket.ts:315-339 | a run has left a socket neither current nor closed if and only if some step of it overwrote the current socket |
| SocketTheorems.StepLeaksExactly | src/websocket/reconnectingWebSocket.ts:330-339 | a step leaves a socket neither current nor closed if and only if an attempt returns while connecting with another socket current |
| SocketTheorems.OneAtATimeNeverLeaks | src/websocket/reconnectingWebSocket.ts:315-339 | with at most one attempt in flight at a time every socket ever handed over is current or closed |
| SocketOutcomes.ClosesOutcome | src/websocket/reconnectingWebSocket.ts:387-421 | the codes 1000, 1001, 1002 and 1003 end the connection with its socket closed and that cause and code reported; after every other code a retry is scheduled and its timer is live |
| SocketOutcomes.FailedOutcome | src/websocket/reconnectingWebSocket.ts:382-385 | a failed attempt leads to DISCONNECTED, to a recovery or to a retry by the kind of its error, with that reason reported, and to nothing once the connection has ended |
| SocketOutcomes.OpensOutcome | src/websocket/reconnectingWebSocket.ts:341-355 | the opening of the current socket while CONNECTING leads to CONNECTED, reports it, resolves the open cycle, calls the handlers and sets backoff and refresh mark back |
| SocketOutcomes.EveryAttemptIsReported | src/instrumentation/websocket.ts:81-190 | over any run every attempt but the first is counted exactly once, by the report of a resolved cycle or by the open one |
| SshBlocks.UpdateVerbatimExactly | src/remote/sshConfig.ts:219-341 | update puts a block into every config as it stands if and only if the block holds no `$` reference: with one, some config that already has a block of the host is rewritten to something else |
| SshBlocks.UpdateRewrites | src/remote/sshConfig.ts:219-341 | update turns before + old block + after into before + new block + after, for a new block without `$` references, or appends any block after trimming |
| SshBlocks.MarkersOnceExactly | src/remote/sshConfig.ts:219-283 | afterwards each marker occurs once more than in the new block's body, and the block is found if and only if that is once |
| SshBlocks.UpdateIdempotentExactly | src/remote/sshConfig.ts:219-341 | repeating an update changes nothing if and only if the block's body holds no marker |
| SshBlocks.OtherBlockUnchanged | src/remote/sshConfig.ts:219-341 | what is found for another host, a block, none or an error, is the same afterwards, unless the blocks contain each other's markers |
| SshMerge.MergeExactly | src/remote/sshConfig.ts:118-178 | for a config without keys that differ in case only, and any overrides: so is the result; the last override of a key wins if it is not empty, an empty one deletes an existing key, empty base values vanish, SetEnv values concatenate, an override of a missing key stays |
| SshMerge.SetEnvAddsUpExactly | src/remote/remote.ts:961-973 | the merged SetEnv is the non-empty values of the three sources, lowest precedence first, joined by blanks, if and only if no empty value stands below a non-empty one; one that does leaves a leading blank |
| SshMerge.EmptyUserValueRemovesExactly | src/remote/remote.ts:961-987 | an empty user value removes a default if deployment and CLI are silent on the key (neither gives it, the deployment alone gives it empty, or the CLI empties what the deployment gives); otherwise the default comes back |
| SshProperties.EarliestBlockWins | src/remote/sshSupport.ts:92-113 | each key has the value of the earliest matching block that defines it |
| SshPatterns.MatchesExactly | src/remote/sshSupport.ts:99-109 | a pattern matches a host if and only if the host is one piece for each of its characters: any text for `*`, one character for `?`, the character itself for others |
| SshPatterns.KeyAndValueExactly | src/remote/sshSupport.ts:61-69 | a line is read as its first word and all that follows the first separator, be that white space or one equals sign |
| SshProperties.BlockRoundTrip | src/remote/sshConfig.ts:298-327 | from the text of a built block a matching host gets exactly the merged non-empty values and any other host nothing |
| SshProperties.AppendedBlockApplies | src/remote/remote.ts:1004-1030 | after a first update of any config, an empty one included, a host has the merged values except where an earlier matching block of that config defines the key |
| SshUpdates.ReplacedBlockApplies | src/remote/remote.ts:1004-1013 | after a later update a host has, key by key, the value of an earlier matching block of the user's, else that of the new block if it matches and has one, else that of the later blocks |
| Authority.RoundTripExactly | src/util/authority.ts:30-87 | the printed authority parses back to the same four parts if and only if they pass a test on the parts alone: hosts may contain `--` and end in an even number of dashes |
| Authority.ParsedPartsPrintBack | src/util/authority.ts:30-74 | whatever is parsed prints back to the host it was parsed from |
| DeploymentProtocol.ContextFollowsSession | src/deployment/deploymentManager.ts:417-421 | over any interleaving the authenticated context is true if and only if the session is signed in, and a session that was signed out leaves no credentials on the live client |
| DeploymentProtocol.SignsInOnlyUnmoved | src/deployment/deploymentManager.ts:114-159 | a successful verification that began signed out signs in if and only if nothing was disposed and no session transition happened at any point since (one that began signed in never does: a signed-in session or a later transition stops it) |
| DeploymentTheorems.LogoutExactly | src/deployment/deploymentManager.ts:199-333 | whatever happens after a logout, everything that signs in or stores a deployment is the work of calls made since, if and only if at the logout the manager is disposed or no token update is pending |
| DeploymentTheorems.LogoutWins | src/deployment/deploymentManager.ts:199-215 | in one run after a logout no call still in flight from before it signs in or stores a deployment, as long as no old token update meets a suspended session of its host |
| DeploymentTheorems.OneRecoveryAtATime | src/deployment/deploymentManager.ts:346-383 | the recovery runs exactly while one recovery call is pending, and no settings change is remembered when it has ended |
| DeploymentEffects.SignedInSendsLast | src/deployment/deploymentManager.ts:114-336 | whenever a session is signed in, the live client has the host and token of the last event that signed in or rotated: a login, a verification that found the session unmoved, or a token update; a login without a token left the token there was |
| DeploymentEffects.StepShows | src/deployment/deploymentManager.ts:114-239 | every event signs in, rotates, forgets, suspends or does nothing, as a reading of the event and the session alone says, and session, credentials, contexts, listener and the count of transitions change accordingly and in no other way |
| DeploymentEffects.ChangeIsNotLost | src/deployment/deploymentManager.ts:346-380 | at any time after a settings change it is still remembered by the running recovery, or has been answered since by a recovery call begun after it or by there being nothing to recover |
| Readiness.ReadyExactly | src/remote/workspaceStateMachine.ts:82-269 | processing reports ready if and only if the workspace it leaves current runs and its chosen agent is present and usable |
| Readiness.LatestIsProcessed | src/remote/remote.ts:565-618 | whenever nothing is processed and the wait is unsettled, the last workspace processed is the last delivered |
| Readiness.AskedOnce | src/remote/workspaceStateMachine.ts:112-122 | over any events and answers there is at most one start prompt and one update attempt |
| ReadinessTheorems.ChoiceExactly | src/promptUtils.ts:16-66 | choosing fails if and only if the workspace has no agent of the asked name; otherwise it gives the only such agent or, of several, the one picked in their order, and none if the choice is declined |
| ReadinessTheorems.OnlyTheAskedAgent | src/remote/workspaceStateMachine.ts:157-171 | over any run of the wait, an agent is chosen only if it has the name the authority asks for |
| ReadinessTheorems.ThrowsExactly | src/remote/workspaceStateMachine.ts:82-269 | processing fails if and only if the workspace is gone, the start is declined or fails, or its agent is not chosen, gone, broken, or blocked while its logs cannot be streamed |
| Retry.SentAtMostFourTimes | src/api/authInterceptor.ts:73-184 | whatever the outside does a request is sent one to four times, never twice with the same marks |
| Retry.GivesUpOnlyExhausted | src/api/authInterceptor.ts:73-184 | a 401 reaches the caller, for a client with a host and a request with its config, only when neither new settings nor a recovery is left to try: each was used already or does not help at the last look, whatever earlier looks at the same 401 were answered |
| RetryTheorems.RequestReasoned | src/api/authInterceptor.ts:73-184 | every re-send has its reason, a refreshed certificate or at some look new settings or else a recovery, each once; the request ends as its last reply says, a certificate error only where no refresh is left to try |
| SinkProtocol.BufferWithinLimit | src/telemetry/sinks/localJsonlSink.ts:107-160 | after a write the buffer is within its limit |
| SinkProtocol.DataBytesTrue | src/telemetry/sinks/localJsonlSink.ts:229-241 | the byte count the sink keeps is the byte count of what it appends |
| SinkProtocol.RunHeads | src/telemetry/sinks/localJsonlSink.ts:229-241 | every header on disk is one that was there before or this activation's own |
| SinkProtocol.RolledOverExample | src/telemetry/sinks/localJsonlSink.ts:229-266 | under any limits that src/settings/telemetry.ts:32-78 can give, two flushed writes of a line long enough end in segments 0 and 1, and the first flush of a restarted activation strays |
| SinkProtocol.RestartFiled | src/telemetry/sinks/localJsonlSink.ts:261-266 | a restarted activation satisfies all invariants of the files |
| SinkTheorems.AcceptedExactly | src/telemetry/sinks/localJsonlSink.ts:96-107 | over any run a live sink accepts every line written to it, in order, and a disposed one none |
| SinkTheorems.StepLosesExactly | src/telemetry/sinks/localJsonlSink.ts:148-227 | a write loses what exceeds the buffer limit, a flush that fails its batch, and nothing else loses a line |
| SinkTheorems.WriteQueuesExactly | src/telemetry/sinks/localJsonlSink.ts:107-114 | after a write by a live sink a flush is queued if and only if one was queued before or the buffer holds a full batch |
| SinkTheorems.FlushIsRun | src/telemetry/sinks/localJsonlSink.ts:116-131 | the run that the promise of a flush stands for is queued, in progress or settled ever after |
| SinkTheorems.FlushStores | src/telemetry/sinks/localJsonlSink.ts:116-241 | after a flush request, from wherever a flush is suspended, the batch and then the buffer are stored if nothing fails, and nothing is left queued |
| SinkTheorems.DisposalStores | src/telemetry/sinks/localJsonlSink.ts:133-146 | a disposal requests such a flush: what the sink still holds is stored in order if nothing fails |
| SinkTheorems.DisposedOnce | src/telemetry/sinks/localJsonlSink.ts:96-141 | a second disposal and a write after the first change nothing |
| SinkTheorems.LimitsAreTheLastSet | src/telemetry/sinks/localJsonlSink.ts:162-186 | over any run the limits in force are those of the last configuration change |
| TelemetryFiles.PathReadsBack | src/telemetry/localJsonlFiles.ts:14-37 | the name of a session file reads back as its date, slug and segment |
| TelemetryFiles.PathInjective | src/telemetry/localJsonlFiles.ts:14-21 | different days or segments have different names |
| TelemetryFiles.SlugFitsFileName | src/telemetry/sinks/localJsonlSink.ts:341-344 | the slug of any session id is non-empty and dot-free, has at most eight characters, and so fits the name pattern |
| TelemetryFiles.SlugExactly | src/telemetry/sinks/localJsonlSink.ts:341-344 | the slug is the first eight letters and digits of the id, others skipped, or all of them if there are fewer, and `anon0000` if there are none |
| FileNames.ParsePrintsBackExactly | src/telemetry/localJsonlFiles.ts:11-37 | a parsed name is the printed form of its parts if and only if its part has no leading zero |
| Calendar.DateTextOrder | src/util/date.ts:8-12 | UTC date strings of the years 0 to 9999 are ordered like the days, those before 1970 included |
| Calendar.DateTextInjective | src/util/date.ts:8-12 | different days have different date strings |
| Calendar.ParsesExactly | src/util/date.ts:14-34 | the texts that parse are exactly the texts that are printed for some day |
| Calendar.DayExactly | src/util/date.ts:8-12 | the UTC date of an instant is the day between whose midnights, 24 hours apart, it lies, before 1970 too |
| Calendar.YearStartCounts | src/util/date.ts:8-34 | the days up to a year are 365 for each year and the leap days of the Gregorian rule, 97 in 400 years |
| Calendar.DatesCountedExactly | src/util/date.ts:8-34 | the date of a day is the one whose place in the Gregorian calendar, given by a formula, is that day |
| Retention.SplitByAge | src/telemetry/sinks/localJsonlSink.ts:299-310 | the first loop separates the files past the age limit and totals the rest |
| Retention.EvictOldest | src/telemetry/sinks/localJsonlSink.ts:312-318 | the second loop evicts the shortest oldest-first prefix that brings the rest within the limit |
| Retention.SelectByAgeAndSize | src/telemetry/sinks/localJsonlSink.ts:294-320 | the names to delete are those of the expired files and then of that prefix of the survivors |
| Retention.OwnFilesAreSpared | src/telemetry/sinks/localJsonlSink.ts:279-291 | no file of the running session, whatever its day and segment, is offered for deletion |
| Retention.OthersOfferedExactly | src/telemetry/sinks/localJsonlSink.ts:279-291 | of other sessions every file is offered for deletion, unless the slug of its session begins with that of the running one |
| WireFormat.RenameKeys | src/telemetry/wireFormat.ts:253-260 | lookups in the record the loop fills are lookups in the renamed entries |
| WireFormat.SecondHeaderRejected | src/telemetry/wireFormat.ts:201-215 | a second header is an error and leaves the first in force |
| WireReading.LineDecidedExactly | src/telemetry/wireFormat.ts:201-227 | only headers change the header in force, and only before another; a second header, another kind of line, a row before the header and a line that is no object are told apart |
| WireReading.CamelExactly | src/telemetry/wireFormat.ts:236-260 | a key is renamed underscore by underscore: a small letter behind one goes up and takes its place, any other underscore stays |
| DateRanges.CanContainDays | src/telemetry/export/range.ts:118-134 | the comparison of date strings is the comparison of days |
| Export.StreamLine | src/telemetry/export/files.ts:103-111 | one non-blank line contributes its event if it parses and lies in range, and stops the file if it does not parse |
| Export.StreamNext | src/telemetry/export/files.ts:96-112 | one turn of the loop over the lines: a blank line is passed over, any other goes through the parser |
| Export.StreamFile | src/telemetry/export/files.ts:87-131 | a file contributes the in-range events before its first bad line, blank lines skipped |
| Export.ReadLinesStamped | src/telemetry/wireFormat.ts:201-227 | every event that was read has a timestamp that parses |
| Export.LogOrder | src/telemetry/export/files.ts:145-151 | the order of files by date, session and part is a total preorder |
| Export.AdvanceCursor | src/telemetry/export/files.ts:153-165 | advancing takes the next event of the stream into the frontier, or finds it exhausted |
| Export.TakeNextCursor | src/telemetry/export/files.ts:177-194 | the cursor taken is a least one by (timestamp, session id) and the others stay |
| Export.OpenStreams | src/telemetry/export/files.ts:72-74 | every non-empty stream starts with its first event in the frontier |
| Export.EmitNext | src/telemetry/export/files.ts:75-79 | one round of the loop emits a least event and refills from its stream, losing nothing |
| EndToEnd.StreamSession | src/telemetry/export/files.ts:87-131 | the files of a session are streamed one after the other |
| EndToEnd.StreamSessions | src/telemetry/export/files.ts:69-71 | one stream per group |
| EndToEnd.ExportEvents | src/telemetry/export/files.ts:33-85 | listing, sorting, grouping and merging together produce a merge of one stream per session of the directory |
| EndToEnd.GroupFacts | src/telemetry/export/files.ts:133-151 | a session's group holds exactly its listed files, each once, in order |
| EndToEnd.FileReadsBack | src/telemetry/wireFormat.ts:180-227 | a header followed by rows reads back as the events of the rows up to the first without a wire form, and fails if and only if there is one |
| EndToEnd.CanonicalStream | src/telemetry/export/files.ts:87-131 | reading the session's files in order yields the range's selection of what they read as, when the skipped ones hold nothing in range |
| EndToEnd.StreamIsContents | src/telemetry/export/files.ts:33-131 | the stream the exporter forms from the directory is the range's selection of what the session's files read as, when the skipped ones hold nothing in range |
| EndToEnd.SkippedHoldsNothing | src/telemetry/export/range.ts:114-134 | a file the range skips reads as no event in range, when its events happened on its date |
| EndToEnd.NothingLostExactly | src/telemetry/sinks/localJsonlSink.ts:95-227 | nothing of a run is lost or on its way if and only if no write met a full buffer, no flush failed and the last flush has settled |
| Export.OrderExactly | src/telemetry/export/files.ts:177-194 | the merge orders events by the instants of their timestamps and, at the same instant, by session id |
| Export.BlankLinesSkipped | src/telemetry/export/files.ts:102-106 | a blank line anywhere in a file changes nothing of what is read |
| Export.MalformedLineEndsFile | src/telemetry/export/files.ts:102-121 | a line that is no JSON ends its file with an error and leaves what was read before it |
| Export.KeepExactly | src/telemetry/export/files.ts:107-111 | a range selects exactly the events whose timestamp it contains |
| Pruning.GroupInDates | src/telemetry/export/files.ts:32-54 | leaving out skipped files before the sort gives the session the same files in the same order as leaving them out after it |
| Pruning.SessionPrunedExactly | src/telemetry/export/files.ts:32-54 | in any directory a session's stream for a range is the range's selection of its full stream if and only if none of its skipped files reads an event of the range |
| Pruning.OutputIsStream | src/telemetry/export/files.ts:64-85 | the merged output restricted to one session is that session's stream, and empty for a session without a listed file |
| Pruning.DatedFilesAreNotLost | src/telemetry/export/files.ts:32-54 | files that read only events of the date in their name are never lost |
| Pruning.PrunedStaysSorted | src/telemetry/export/files.ts:56-85 | when the full streams are sorted those of the range are, so its output is sorted too |
| StraySegments.SecondHeaderEndsFile | src/telemetry/wireFormat.ts:204-212 | whatever a file holds before and after it, a second header is where the reading of the file ends |
| StraySegments.StrayFlush | src/telemetry/sinks/localJsonlSink.ts:229-266 | the first flush of an activation on a day with segments 0 and 1 appends a header and the batch to segment 1 when segment 0 is full, else the batch to segment 0; the batch counts as stored |
| ConnectionLedger.ResetForgetsAll | src/instrumentation/websocket.ts:132-136 | after a reset nothing is open; something was lost exactly if something was open |
| ConnectionLedger.Alternates | src/instrumentation/websocket.ts:88-130 | in a log that reads back, between two openings there is a drop and between two drops an opening |
| ConnectionLedger.OpensFirst | src/instrumentation/websocket.ts:88-130 | every drop comes after an opening |
| ConnectionLedger.TerminatedBalanced | src/instrumentation/websocket.ts:132-155 | after a termination a reset discards nothing |
| SocketProtocol.RunCreateFits | src/websocket/reconnectingWebSocket.ts:187-203 | in every reachable state with the first attempt or its certificate recovery unsettled, and so with `create` pending, the connection is CONNECTING and exactly one thing is awaited |
| SocketTheorems.ReportedBackoffBounded | src/instrumentation/websocket.ts:157-189 | no report of a resolved cycle names a delay longer than the larger configured delay plus its jitter |
| SocketTheorems.CallsNameTheCurrentSocket | src/websocket/reconnectingWebSocket.ts:341-381 | a step calls handlers at most once and only for the current socket |
| SocketTheorems.RefreshUndoesDisconnect | src/websocket/reconnectingWebSocket.ts:506-536 | a run that create() allows in which a refresh reconnects after the user disconnected, which the description of the state (lines 48-49) rules out |
| SocketTheorems.RefreshesBounded | src/websocket/reconnectingWebSocket.ts:457-484 | a run begins at most one certificate refresh more than it has openings and resumes |
| SocketTheorems.LeakStays | src/websocket/reconnectingWebSocket.ts:315-339 | a socket that is neither current nor closed stays so whatever happens |
| SocketTheorems.LeakExample | src/websocket/reconnectingWebSocket.ts:153-159 | a run that create() allows, with two reconnect() calls before either attempt returns, that leaks the socket of the first |
| SocketOutcomes.DisposedIsFinal | src/websocket/reconnectingWebSocket.ts:62-110 | no action leads out of DISPOSED or back to IDLE, and DISPOSE always leads to DISPOSED |
| SocketOutcomes.CreateOutcome | src/websocket/reconnectingWebSocket.ts:187-203 | create begins one attempt and no cycle |
| SocketOutcomes.ReconnectOutcome | src/websocket/reconnectingWebSocket.ts:246-270 | from every state but DISPOSED reconnect() closes the socket, clears the timer and begins one attempt, counted in the open or a new cycle; backoff and refresh mark are set back from DISCONNECTED only |
| SocketOutcomes.DisconnectOutcome | src/websocket/reconnectingWebSocket.ts:275-296 | disconnect() closes the socket, clears the timer and reports the end, unless the connection has ended |
| SocketOutcomes.CloseOutcome | src/websocket/reconnectingWebSocket.ts:298-313 | close() calls the close handlers for the current socket, ends the connection for good and runs onDispose |
| SocketOutcomes.ReturnedOutcome | src/websocket/reconnectingWebSocket.ts:329-340 | a socket that arrives while CONNECTING becomes current; any other is closed at once |
| SocketOutcomes.MessageOutcome | src/websocket/reconnectingWebSocket.ts:356-363 | a message of the current socket is handed to the handlers and changes nothing else |
| SocketOutcomes.ErrorOutcome | src/websocket/reconnectingWebSocket.ts:364-376 | an error of the current socket calls the handlers and is handled like a failed attempt |
| SocketOutcomes.StaleSocketIgnored | src/websocket/reconnectingWebSocket.ts:341-381 | events of a socket that is not the current one change nothing |
| SocketOutcomes.TimerOutcome | src/websocket/reconnectingWebSocket.ts:448-451 | the retry timer begins one attempt, counted in the open cycle |
| SocketOutcomes.RecoveryOutcome | src/websocket/reconnectingWebSocket.ts:526-535 | a refresh that succeeds reconnects; any other end of a recovery ends the connection |
| SocketOutcomes.DelayAroundBackoff | src/websocket/reconnectingWebSocket.ts:430-432 | the delay is the backoff at the middle draw, lies within the jitter of it at every draw, and that far below it at the lowest |
| Substrings.CountSubstring | src/util.ts:57-68 | the loop counts occurrences from the left without overlap; an empty needle counts none |
| Substrings.CountsEveryOccurrence | src/util.ts:57-68 | for needles whose first character does not recur the count is the number of all occurrences |
| Substrings.VerbatimExactly | src/remote/sshConfig.ts:329-331 | a replacement string goes in unchanged, whatever non-empty text it replaces, if and only if it holds no `$` reference (GetSubstitution, section 22.1.3.19.1 of ECMA-262) |
| Substrings.EscapedExpands | src/remote/sshConfig.ts:329-331 | a text with every `$` doubled goes in as the text, whatever follows |
| Substrings.ReferencesExpand | src/remote/sshConfig.ts:329-331 | the references stand for the match, what is before it and what is after it (GetSubstitution, section 22.1.3.19.1 of ECMA-262) |
| SshBlocks.BlockFoundExactly | src/remote/sshConfig.ts:239-283 | between texts without its markers a block is found if and only if its body holds no marker |
| SshBlocks.AroundBlock | src/remote/sshConfig.ts:239-283 | a found block splits the text into what is before and after it, both without its markers |
| SshBlocks.BlockDecidedExactly | src/remote/sshConfig.ts:239-283 | how often the two markers occur decides: an error for unequal or repeated ones or an end before the start, nothing if there are none, else the block |
| SshConfigs.BuildBlockIsBlock | src/remote/sshConfig.ts:298-327 | what is built is start marker, body and end marker |
| SshMerge.MergeSshConfigValues | src/remote/sshConfig.ts:118-178 | the three loops compute the merge |
| SshMerge.Precedence | src/remote/remote.ts:961-973 | user over CLI over deployment, with every case of empty and missing values |
| SshMerge.DefaultComesBack | src/remote/remote.ts:961-987 | three concrete records in which the default comes back |
| SshMerge.ParseOptionExactly | src/remote/sshConfig.ts:64-79 | a line parses to key and value if and only if it is key characters, a blank or `=`, and the value |
| SshMerge.ParseSshConfig | src/remote/sshConfig.ts:64-94 | the loop over the lines computes the reduction |
| SshMerge.OptionsExactly | src/remote/sshConfig.ts:80-94 | a key has the last value given to it; SetEnv has all non-empty ones, joined by blanks |
| SshProperties.PiecesMakeUp | src/remote/sshSupport.ts:64-69 | splitting a line at its separators loses nothing |
| SshProperties.KeyAndValue | src/remote/sshSupport.ts:64-69 | a key, a blank and a value that does not begin with white space read as that key and value, separators in the value included |
| SshProperties.PrefixPattern | src/remote/sshSupport.ts:97-109 | a pattern prefix* matches exactly the hosts with that prefix |
| SshProperties.ComputeSshProperties | src/remote/sshSupport.ts:49-114 | the loops over lines and blocks compute the effective properties |
| SshProperties.ReadOne | src/remote/sshSupport.ts:59-87 | one line starts a block, sets a property of the current one, or is ignored |
| SshProperties.BlockAfterText | src/remote/sshSupport.ts:59-90 | a block after other text adds one Host block and changes no other |
| SshPatterns.LiteralPattern | src/remote/sshSupport.ts:99-109 | a pattern without wildcards matches itself only |
| SshPatterns.SuffixPattern | src/remote/sshSupport.ts:99-109 | a pattern `*suffix` matches exactly the hosts that end in the suffix |
| SshPatterns.QuestionPattern | src/remote/sshSupport.ts:99-109 | a pattern `?` matches exactly the hosts of one character |
| SshPatterns.InnerStar | src/remote/sshSupport.ts:99-109 | a star between two literals takes what is between them |
| SshPatterns.OptionLinesInKeyOrder | src/remote/sshConfig.ts:303-313 | the option lines of a block are those of the entries with a value, in the order of their keys |
| SshUpdates.LooseReads | src/remote/sshSupport.ts:49-114 | options between a block and the next Host line are read into the block, later ones over earlier ones; everything after is read as without it |
| SshUpdates.ReplacedConfigs | src/remote/sshSupport.ts:49-114 | the Host blocks of a text around a block are those of the text before, the block with the options below it, and those of the text after |
| SshUpdates.OwnLinesStay | src/remote/sshConfig.ts:217-234 | an update leaves its block on lines of its own where it found or appended it, so the next update finds it there |
| SshUpdates.AppendLines | src/remote/sshConfig.ts:333-341 | an appended block comes after exactly one blank line, and white space at the end of the text goes |
| Authority.PrintedPieces | src/util/authority.ts:30-87 | the printed host splits at `--` into the pieces of the host, the user and the last part, when the dashes pair up |
| Authority.UnambiguousParsesBack | src/util/authority.ts:30-87 | unambiguous parts parse back |
| Authority.ParsesBackUnambiguous | src/util/authority.ts:30-87 | parts that parse back are unambiguous |
| Authority.DashMoves | src/util/authority.ts:76-87 | a dash at the end of a host is read as one at the start of the user |
| Authority.DashExample | src/util/authority.ts:30-87 | the host `dev-` of user `alice` is read back as `dev` of `-alice` |
| Authority.PrinterInjective | src/util/authority.ts:76-87 | the printer is injective on unambiguous parts |
| DeploymentProtocol.RunCounts | src/deployment/sessionStore.ts:48-60 | the session changes by transitions only, and each is counted |
| DeploymentEffects.CredentialsFollowEffects | src/deployment/deploymentManager.ts:165-239 | over any run the credentials of the live client are those that the effects of its events make, one after the other |
| DeploymentEffects.RotationOnlyRotates | src/deployment/deploymentManager.ts:313-319 | a token update verified as the signed-in user of the same session object gives the client the new host and token and touches nothing else |
| DeploymentEffects.StepStores | src/deployment/deploymentManager.ts:187-215 | a deployment is stored exactly when OAuth is set up for the session that is still current, and removed exactly when it is forgotten |
| DeploymentEffects.StepBegins | src/deployment/deploymentManager.ts:249-397 | every event begins and ends exactly the calls it should, with the deployment and token they verify |
| DeploymentEffects.LoopExactly | src/deployment/deploymentManager.ts:346-380 | a settings change is remembered while the recovery runs and starts it otherwise; after its call the recovery goes on exactly if a change is remembered and there is something to recover |
| DeploymentTheorems.OldCallSignsInExactly | src/deployment/deploymentManager.ts:300-333 | a call from before the logout signs in if and only if it is a token update whose host has a suspended session |
| DeploymentTheorems.SuspendedMeansSignedInAgain | src/deployment/deploymentManager.ts:221-228 | a suspended session after a logout means the deployment was signed in again since |
| DeploymentTheorems.LateUpdateReturns | src/deployment/deploymentManager.ts:322-330 | a run in which such a token update signs in and stores its deployment |
| Readiness.ResolvedAgentExists | src/remote/remote.ts:620-642 | once the wait has resolved, resolving the agent cannot throw and the agent is usable |
| Readiness.SettledStays | src/remote/remote.ts:592-606 | a settled wait stays as it is |
| ReadinessTheorems.FoundExactly | src/remote/workspaceStateMachine.ts:172-177 | the agent looked up is the first with the id, and there is none only if no agent has it |
| ReadinessTheorems.ProcessExactly | src/remote/workspaceStateMachine.ts:82-171 | a workspace is updated once if that is due, its agent forgotten after an update or in transition, and an agent looked for exactly if the workspace to go on with runs |
| ReadinessTheorems.WaitsExactly | src/remote/workspaceStateMachine.ts:82-269 | processing waits in exactly the cases in which it neither fails nor is ready |
| ReadinessTheorems.WaitEndsExactly | src/remote/remote.ts:581-611 | a failure rejects the wait, readiness resolves it with the current workspace, and otherwise it goes on with what arrived meanwhile |
| ReadinessTheorems.ArrivalIsKept | src/remote/remote.ts:581-593 | an arrival is processed at once or replaces what is waiting to be processed |
| ReadinessTheorems.ReadyAtOnce | src/remote/remote.ts:565-618 | a running workspace whose one agent is usable resolves the wait when it has been processed |
| Retry.RequestFollows | src/api/coderApi.ts:581-605 | however often interceptors re-send a request, its sends begin with its own marks, each has strictly more marks than the last, and a failure carries the marks of the last send |
| Retry.FourSendsHappen | src/api/authInterceptor.ts:73-184 | four sends do happen |
| Retry.OuterAsksAgain | src/api/authInterceptor.ts:73-184 | a run in which one 401 after a refreshed certificate is refused a recovery by the inner chain and granted one by the outer |
| RetryTheorems.LastLookFoundNothing | src/api/authInterceptor.ts:55-127 | a 401 the caller sees was looked at, and at the last look there was no host, no config, or neither new settings nor a recovery that had not been used |
| LocalJsonlSinks.LocalJsonlSink.constructor | src/telemetry/sinks/localJsonlSink.ts:69-80 | a fresh activation over the files a session left in the directory is the protocol's start state, with the slug the session id is cut down to |
| LocalJsonlSinks.LocalJsonlSink.Write | src/telemetry/sinks/localJsonlSink.ts:96-114 | an accepted line joins the buffer, the oldest lines over the limit are dropped, a full batch requests a flush, and the buffer is within its limit; after disposal, or for an event that does not serialize, nothing changes |
| LocalJsonlSinks.LocalJsonlSink.EnforceBufferLimit | src/telemetry/sinks/localJsonlSink.ts:148-160 | exactly the oldest lines over the limit go; within the limit nothing does |
| LocalJsonlSinks.LocalJsonlSink.Enqueue | src/telemetry/sinks/localJsonlSink.ts:120-131 | at most one run is put on the chain until that run starts |
| LocalJsonlSinks.LocalJsonlSink.Flush | src/telemetry/sinks/localJsonlSink.ts:120-131 | a flush request joins the queued run or queues one, and the promise returned stands for that run |
| LocalJsonlSinks.LocalJsonlSink.StartRun | src/telemetry/sinks/localJsonlSink.ts:206-216 | a starting run frees the queue and captures the whole buffer, or settles at once when there is nothing |
| LocalJsonlSinks.LocalJsonlSink.ChooseTarget | src/telemetry/sinks/localJsonlSink.ts:248-260 | the target is the current file of the day, the day's segment 0 with its size on disk, or a new segment when the batch would exceed the limit; a failed mkdir discards the batch |
| LocalJsonlSinks.LocalJsonlSink.SeedFromDisk | src/telemetry/sinks/localJsonlSink.ts:262-266 | a new day starts from segment 0 with the number of bytes found on disk |
| LocalJsonlSinks.LocalJsonlSink.AppendToFile | src/telemetry/sinks/localJsonlSink.ts:229-246 | one append puts the batch, after the header if the file has no bytes yet, at the end of the target and leaves the directory holding what the protocol says |
| LocalJsonlSinks.LocalJsonlSink.AppendSucceeds | src/telemetry/sinks/localJsonlSink.ts:229-246 | a finished append records the bytes written and changes no other file of the directory |
| LocalJsonlSinks.LocalJsonlSink.AppendFailed | src/telemetry/sinks/localJsonlSink.ts:213-226 | a failed append discards the batch and leaves the files as they were |
| LocalJsonlSinks.LocalJsonlSink.Configure | src/telemetry/sinks/localJsonlSink.ts:162-186 | a configuration change replaces the limits only |
| LocalJsonlSinks.LocalJsonlSink.Dispose | src/telemetry/sinks/localJsonlSink.ts:133-146 | the first disposal stops accepting and requests one last flush; later ones do nothing |
| WireFormat.TelemetryFileParser.Parse | src/telemetry/wireFormat.ts:180-227 | the parser object moves from header to header and returns what the line says, keeping one context per deployment URL |
| ConnectionLedger.WebSocketTelemetry.StateTransition | src/instrumentation/websocket.ts:68-78 | a transition is logged and changes nothing else |
| ConnectionLedger.WebSocketTelemetry.CountAttempt | src/instrumentation/websocket.ts:81-86 | an attempt is counted in the open cycle, if any |
| ConnectionLedger.WebSocketTelemetry.ReportOpened | src/instrumentation/websocket.ts:88-99 | an opening is logged and ends the open cycle with success |
| ConnectionLedger.WebSocketTelemetry.ReportDropped | src/instrumentation/websocket.ts:101-130 | an open connection is reported dropped once; otherwise nothing happens |
| ConnectionLedger.WebSocketTelemetry.ResetAll | src/instrumentation/websocket.ts:132-136 | everything open is forgotten, and the loss is counted |
| ConnectionLedger.WebSocketTelemetry.StartCycle | src/instrumentation/websocket.ts:139-149 | a cycle is opened unless one is open |
| ConnectionLedger.WebSocketTelemetry.ReportTerminated | src/instrumentation/websocket.ts:152-155 | a drop and the failed end of the open cycle |
| ConnectionLedger.WebSocketTelemetry.ReportRetrying | src/instrumentation/websocket.ts:158-169 | a drop and an open cycle, which remembers its longest delay |
| ConnectionLedger.WebSocketTelemetry.Finish | src/instrumentation/websocket.ts:171-189 | an open cycle is resolved with its outcome, reason, attempts and longest delay |
| ReconnectingWebSockets.ReconnectingWebSocket.Dispatch | src/websocket/reconnectingWebSocket.ts:149-165 | the state moves as the reducer says, logging a real transition; CONNECT is also allowed while connecting |
| ReconnectingWebSockets.ReconnectingWebSocket.Connect | src/websocket/reconnectingWebSocket.ts:315-330 | an allowed connect drops and closes the current socket and starts one attempt |
| ReconnectingWebSockets.ReconnectingWebSocket.ReconnectInternal | src/websocket/reconnectingWebSocket.ts:250-270 | not after disposal; from DISCONNECTED backoff and refresh start anew; a pending timer is cleared; then connect |
| ReconnectingWebSockets.ReconnectingWebSocket.PrepareReconnect | src/websocket/reconnectingWebSocket.ts:255-267 | what reconnecting does before it connects: the cycle, the backoff, the refresh mark and the timer |
| ReconnectingWebSockets.ReconnectingWebSocket.Reconnect | src/websocket/reconnectingWebSocket.ts:246-248 | a manual reconnect is a step of the protocol |
| ReconnectingWebSockets.ReconnectingWebSocket.ClearCurrentSocket | src/websocket/reconnectingWebSocket.ts:569-580 | timer and socket are let go, the socket closed, the ledger reset |
| ReconnectingWebSockets.ReconnectingWebSocket.LetGo | src/websocket/reconnectingWebSocket.ts:290-296 | the final reports come before the socket and timer are let go |
| ReconnectingWebSockets.ReconnectingWebSocket.DisconnectWithReason | src/websocket/reconnectingWebSocket.ts:282-296 | from any live state the connection is terminated, its socket closed and its timer cleared; otherwise nothing |
| ReconnectingWebSockets.ReconnectingWebSocket.Disconnect | src/websocket/reconnectingWebSocket.ts:275-280 | a manual disconnect is a step of the protocol |
| ReconnectingWebSockets.ReconnectingWebSocket.Close | src/websocket/reconnectingWebSocket.ts:298-313 | close handlers run once if a socket is current, then the connection is disposed |
| ReconnectingWebSockets.ReconnectingWebSocket.DisposeSelf | src/websocket/reconnectingWebSocket.ts:555-567 | the first disposal terminates, lets go and calls onDispose; later ones do nothing |
| ReconnectingWebSockets.ReconnectingWebSocket.ScheduleReconnect | src/websocket/reconnectingWebSocket.ts:423-454 | from CONNECTING or CONNECTED a retry timer starts, its jittered delay is reported and the backoff doubles up to the maximum |
| ReconnectingWebSockets.ReconnectingWebSocket.ArmRetry | src/websocket/reconnectingWebSocket.ts:430-453 | timer, backoff and the open cycle of a scheduled retry |
| ReconnectingWebSockets.ReconnectingWebSocket.HandleClientCertificateError | src/websocket/reconnectingWebSocket.ts:457-484 | a refresh is begun at most once per cycle and only for refreshable errors |
| ReconnectingWebSockets.ReconnectingWebSocket.HandleConnectionError | src/websocket/reconnectingWebSocket.ts:506-540 | ignored when disposed or disconnected; otherwise disconnect, recovery or retry by the kind of error |
| ReconnectingWebSockets.ReconnectingWebSocket.SocketReady | src/websocket/reconnectingWebSocket.ts:330-339 | a socket that arrives while not connecting is closed; otherwise it becomes current |
| ReconnectingWebSockets.ReconnectingWebSocket.ConnectFailed | src/websocket/reconnectingWebSocket.ts:382-384 | a failed attempt is handled as a connection error |
| ReconnectingWebSockets.ReconnectingWebSocket.OnSocketOpen | src/websocket/reconnectingWebSocket.ts:341-354 | only the current socket's opening counts; it resets backoff and the refresh mark |
| ReconnectingWebSockets.ReconnectingWebSocket.OnSocketMessage | src/websocket/reconnectingWebSocket.ts:356-362 | only the current socket's messages reach the handlers |
| ReconnectingWebSockets.ReconnectingWebSocket.OnSocketError | src/websocket/reconnectingWebSocket.ts:364-375 | only the current socket's errors are handled |
| ReconnectingWebSockets.ReconnectingWebSocket.OnSocketClose | src/websocket/reconnectingWebSocket.ts:377-381 | only the current socket's closing is handled |
| ReconnectingWebSockets.ReconnectingWebSocket.HandleSocketClose | src/websocket/reconnectingWebSocket.ts:387-421 | unrecoverable and normal codes disconnect, others retry |
| ReconnectingWebSockets.ReconnectingWebSocket.OnRetryTimer | src/websocket/reconnectingWebSocket.ts:446-449 | the timer's firing connects again |
| ReconnectingWebSockets.ReconnectingWebSocket.OnRecoveryEnd | src/websocket/reconnectingWebSocket.ts:528-536 | a successful refresh reconnects, any other end disconnects |
| SshConfigs.SshConfig.FindBlock | src/remote/sshConfig.ts:239-283 | the block, its absence, or the error for unequal, repeated or reversed markers |
| SshConfigs.SshConfig.AppendBlock | src/remote/sshConfig.ts:333-341 | an empty text becomes the block; otherwise trailing white space gives way to one blank line |
| SshConfigs.SshConfig.NewBlock | src/remote/sshConfig.ts:298-327 | the lines pushed one by one are the block of the sorted merged values |
| SshConfigs.SshConfig.Update | src/remote/sshConfig.ts:219-234 | the text is rewritten as the update theorems say; on an error it stays |
| DeploymentManagers.SessionStore.Transition | src/deployment/sessionStore.ts:48-60 | every transition replaces the session and makes a new identity |
| DeploymentManagers.DeploymentManager.SetDeployment | src/deployment/deploymentManager.ts:165-190 | credentials, session, listener and contexts change together, and the call waits for OAuth with the identity it made |
| DeploymentManagers.DeploymentManager.Login | src/deployment/deploymentManager.ts:165-190 | a direct sign-in is a new call |
| DeploymentManagers.DeploymentManager.ClearDeployment | src/deployment/deploymentManager.ts:199-215 | the session, listener, credentials, contexts and stored deployment are cleared together |
| DeploymentManagers.DeploymentManager.SuspendSession | src/deployment/deploymentManager.ts:221-234 | the session is signed out but keeps its deployment and listener |
| DeploymentManagers.DeploymentManager.ClearAuthState | src/deployment/deploymentManager.ts:230-234 | credentials and contexts are cleared |
| DeploymentManagers.DeploymentManager.Dispose | src/deployment/deploymentManager.ts:236-242 | disposal marks the manager and drops its listeners |
| DeploymentManagers.DeploymentManager.VerifyAndApplySession | src/deployment/deploymentManager.ts:114-125 | the call remembers the session it saw |
| DeploymentManagers.DeploymentManager.VerifyAndUpdateSession | src/deployment/deploymentManager.ts:300-308 | the token update remembers the session it saw |
| DeploymentManagers.DeploymentManager.HasStateChangedSince | src/deployment/deploymentManager.ts:153-159 | true if disposed, signed in, or the session is another |
| DeploymentManagers.DeploymentManager.ApplyVerified | src/deployment/deploymentManager.ts:124-133 | a verified apply signs in unless the state moved |
| DeploymentManagers.DeploymentManager.UpdateVerified | src/deployment/deploymentManager.ts:308-333 | a verified token update rotates the token, signs in, revives a suspended session of its host, or does nothing |
| DeploymentManagers.DeploymentManager.OAuthSettled | src/deployment/deploymentManager.ts:188-193 | the deployment is stored only if the session is still the one made |
| DeploymentManagers.DeploymentManager.CallSettled | src/deployment/deploymentManager.ts:370-383 | the recovery loop goes on when its call settles |
| DeploymentManagers.DeploymentManager.RecoveryLoop | src/deployment/deploymentManager.ts:357-375 | a pass of the loop starts a call or leaves |
| DeploymentManagers.DeploymentManager.OnAuthConfigChange | src/deployment/deploymentManager.ts:346-355 | a settings change starts the recovery or is remembered |
| DeploymentManagers.DeploymentManager.OnSessionAuthChanged | src/deployment/deploymentManager.ts:261-292 | the listener updates, recovers or clears, for its own host only |
| DeploymentManagers.DeploymentManager.OnCurrentDeploymentChanged | src/deployment/deploymentManager.ts:387-400 | another window's deployment is verified unless signed in |
| Readiness.WorkspaceStateMachine.ProcessWorkspace | src/remote/workspaceStateMachine.ts:82-269 | every status, update, agent and lifecycle branch |
| Readiness.WorkspaceStateMachine.UpdateOnce | src/remote/workspaceStateMachine.ts:299-334 | the mode goes back to start before the update is attempted |
| Readiness.WorkspaceStateMachine.StartOrUpdate | src/remote/workspaceStateMachine.ts:108-141 | prompt, update and start of a stopped workspace |
| Readiness.WorkspaceStateMachine.FindReadyAgent | src/remote/workspaceStateMachine.ts:167-269 | the chosen agent, kept or asked for, decides readiness |
| Readiness.ReadyWait.OnChange | src/remote/remote.ts:581-593 | while one workspace is processed only the last to arrive is kept |
| Readiness.ReadyWait.OnProcessed | src/remote/remote.ts:592-611 | the end of processing settles the wait or goes on with the pending workspace |
| RetryClient.Client.Request | src/api/coderApi.ts:581-605 | sending a copy of the config and running the interceptors is that exchange |
| RetryClient.Client.HandleError | src/api/authInterceptor.ts:73-184 | the authentication interceptor takes up nothing but a 401 with its config |
| RetryClient.Client.TryRefreshClientCertificate | src/api/coderApi.ts:662-704 | the certificate interceptor marks the config and re-sends it |
| RetryClient.Client.RecoverFromUnauthorized | src/api/authInterceptor.ts:73-184 | the authentication interceptor marks the config and re-sends it |
| RetryClient.Client.RequestAgain | src/api/authInterceptor.ts:176-184 | a re-send from an interceptor continues the exchange |

## Left out

- JSON text, UTF-8 and the internals of `Date`: values and byte counts stand for them.
- `localeCompare` on dates and session ids: taken as code-unit order, which agrees on the digits and letters these consist of except for case.
- Limits of the sink that are not whole numbers, which the settings may give.
- The flush timer: a flush request may come at any time, which covers it.
- Warnings, logging, and the durations and timestamps inside telemetry reports.
- Files deleted by other windows' cleanup while a session is running.
- `SseConnection`, and handlers that call back into the socket while it is calling them.
- The text classification behind `isUnrecoverableHttpError` and `ClientCertificateError.fromError`: the kind of failure is an input.
- A socket factory that throws before returning a promise: it counts as an attempt that fails at once.
- Saving, renaming and file modes of the SSH config, and `parseCoderSshOptions`.
- Lower-casing beyond ASCII, keys that name members of `Object.prototype`, and the host language's ordering of integer-like keys in a record.
- Regular-expression metacharacters other than `*`, `?` and `.` in Host patterns.
- Object identity of the session: the number of transitions stands for it, which is exact because every transition makes a new object.
- Exceptions from telemetry or schema parsing inside `setDeployment` and the recovery loop.
- Network, OAuth, CLI, prompts and other user interface: their answers are inputs of the steps.
- Sharing of one re-authentication prompt among concurrent 401 responses.
- SshBlocks.UpdateRewrites: speaks of host names without `#`, blanks and line breaks, which host names are.
- SshProperties.BlockRoundTrip: speaks of keys without white space and `=`, other than `Host` and not starting with `#`, and of trimmed values without line breaks; other text cannot be read back from a line.
- SinkProtocol.RunFiled: speaks of runs in which the first flush of an activation does not come on a day that an earlier one rolled over, because on such a day it fails (`SinkProtocol.FirstFlushInOrderExactly`).
- SinkProtocol.RunBounded: the same runs; on such a day a segment is opened again with its size taken for zero.
- SinkProtocol.RunHeads: the same runs; `SinkProtocol.FilesOnlyGrow` speaks of all runs.
- EndToEnd.StoredIsExported: the same runs, and with it `EndToEnd.WrittenIsExported` and `EndToEnd.WrittenIsMerged`.
- SshMerge.MergeExactly: takes a base config without keys that differ in case only, in which a second spelling would keep its own value; the overrides may have them.
- SshMerge.Precedence: the same for the deployment's record; those of CLI and user are arbitrary.
- SshBlocks.MarkersOnceExactly: a block that replaces another is taken without `$` references, which would insert other text.
- SshBlocks.OtherBlockUnchanged: the same.
- SshBlocks.UpdateIdempotentExactly: takes blocks without `$` references even when the first update appends, since the second one replaces.
- SshProperties.BlockAfterText: speaks of the same keys and values as `SshProperties.BlockRoundTrip`.
- SshProperties.AppendedBlockApplies: likewise.
- SshUpdates.ReplacedConfigs: likewise, and of blocks on lines of their own.
- SshUpdates.ReplacedBlockApplies: the same, and of blocks without `$` references; blocks the extension wrote stand on lines of their own (`SshUpdates.OwnLinesStay`).
- SshUpdates.OwnLinesStay: takes a block that replaces another without `$` references, and without a marker in its body, with which the next update fails (`SshBlocks.MarkersOnceExactly`).
- SshMerge.SetEnvAddsUpExactly: takes a deployment's record without keys that differ in case only, like `SshMerge.Precedence`.
- SshMerge.EmptyUserValueRemovesExactly: the same.
- Calendar.DateTextReadsBackExactly: speaks of the years 0 to 9999, like `Calendar.DateTextOrder`.
- Calendar.DateTextInjective: the same.
- Calendar.DateTextOrder: speaks of the years 0 to 9999; others print with a sign and six digits and do not sort.
- DateRanges.CustomRangeExactly: speaks of years from 100 on; `Calendar.DateTextReadsBackExactly` says what becomes of earlier ones.
- DateRanges.CanContainDays: takes days and bounds of the years 0 to 9999; custom ranges from the year 100 on have such bounds.
- DateRanges.PruningSafeExactly: the same.
- EndToEnd.ExportEvents: takes ranges with such bounds.
- Pruning.PrunedExportExactly: takes ranges with such bounds, and with it `Pruning.SessionPrunedExactly` and the other theorems of `Pruning` and `StraySegments` about ranges.
- Retention.OthersOfferedExactly: takes slugs of eight letters and digits, which session ids of that many have.
- SinkTheorems.RolledOverOnlyWhenFull: the runs of `SinkProtocol.RunFiled`, for the same reason.
- SocketOutcomes.DelayAroundBackoff: takes a jitter of at most the whole backoff; above that the delay is cut off at zero (`SocketTheorems.LongestDelayReported` speaks of every jitter).
- StraySegments.StrayFlush: speaks of days on which segments 0 and 1 are both on disk, which is what a rollover leaves unless someone removes files.
