# Process supervisor, live session and stores: a verified model

The repository runs generated applications in a container and follows them from an SDK. This project models its
stateful core and proves what that core keeps on every run.

| file | models |
|---|---|
| `FileLock.dfy` | the lock file shared by the supervisor and the command line tool, as interleaved file-system steps of any number of processes |
| `LogRotation.dfy` | read-and-reset of the process log while appends keep arriving, in both implementations |
| `Lifecycle.dfy` | the supervisor's process lifecycle: start, stop, exit and error handlers, restart timer and budget, health interval, kill race |
| `RestartRate.dfy` | how often restarts can be scheduled over whole runs of the lifecycle |
| `CircularBuffer.dfy` | the ring buffer of recent log lines |
| `LineFraming.dfy` | the supervisor's line framer and the SDK's newline-delimited JSON stream |
| `Connection.dfy` | the SDK's reconnecting WebSocket: queue, reconnect counter, callbacks called on open |
| `Outbox.dfy` | where the messages passed to a connection's `send()` end up |
| `Session.dfy` | the handshake a session sends first on every socket, and a session with all the connections it makes over any closing and reconnecting |
| `PhaseTimeline.dfy` | the reducer from server messages to the phase timeline, and its change events |
| `FileTree.dfy` | the tree built from a list of file paths |
| `Workspace.dfy` | the SDK's map of files, and the tree a session shows of it |
| `ErrorStore.dfy` | the deduplicating error table and its summary |
| `LogStore.dfy` | the sequenced log table: batches, expiry, reopening, paging |
| `Retry.dfy` | backoff arithmetic and the HTTP retry loop |
| `Migration.dfy` | the conversation migration |
| `Common.dfy`, `Text.dfy` | an option type; `split`, `trim` and concatenation of strings |

Objects whose methods update fields are classes. Each of their methods is proved to do what a pure step function
says, and the theorems are about all sequences of those steps. Interleaving is modelled at the `await` points: between
two of them a handler runs alone, and any other enabled step may come next. Time, random draws, the child process, the
file system, sockets and the database decide which step comes next or arrive as parameters.

Where a property one would expect is false of the code, the exact condition under which it holds is proved instead,
in both directions:

- the lock excludes exactly when hold time plus check delay stays within 30 seconds (`ExclusiveIffWithinStaleLimit`);
- the command line tool's reset truncates a log that an append has already recreated; no line is lost exactly when no
  step does that, fails to read a renamed log, or writes to one already read (`ConservesIffNoLossyStep`);
- a lock left behind by a holder that died can be taken over exactly when its stamp is more than 30 seconds old
  (`LockLeftBehindIsKeptIff`, `StaleLockGoes`); one left before its stamp was written never is
  (`DeathBeforeStampBlocksForever`);
- `stop()` is final exactly when no restart callback and no `start()` is past its own state check
  (`StopIsFinalIffNothingHalfDone`);
- the restart rate bound holds exactly when starts never overlap or no restart is possible at all (`RateBoundIff`,
  `OverlappingStartsExceedBound`);
- with restarts on and budget left, a failing child is restarted exactly when it exits from `running`: an `error` event
  just before the exit loses the restart (`ExitIsCrashOrStop`, `ErrorBeforeExitLosesRestart`);
- while the session is not closed, the handshake comes first on a socket exactly when the catch-all callbacks and those
  that follow the session's state send nothing on the open or themselves begin with it (`HandshakeComesFirstIff`,
  `NoisyCallbackComesFirst`); a socket whose ticket was being fetched when the session closed still opens and gets no
  handshake (`LateSocketIsNotGreeted`), and after connecting again that handshake goes to the new connection
  (`StraysGoToCurrent`, `HandshakeGoesAstray`);
- neither `close()` is final unless no ticket is being fetched (`CloseIsFinalIffNotFetching`);
- the order of the path list shows in the tree exactly when two different paths share their components, as `a/b` and
  `a//b` do (`OrderIsIrrelevantIffNoSharedComponents`);
- a phase replaced by one of another name but equal statuses goes unreported (`SilentIffSameLooks`,
  `RenameGoesUnreported`); a validated phase can keep unfinished files (`ValidatedFilesDoneIff`);
- reopening the log store can hand out numbers again (`ReopeningReusesNumbersIffLastIsGone`);
- deduplication can lose a conversation id, although the code calls ids unique keys (`EveryIdKeptIffNoneShadowed`).

## Model

| member | source | states |
|---|---|---|
| FileLock.TimedMutualExclusion | container/process-monitor.ts:121-162 | for any number of processes and any interleaving, if holders unlink within H and staleness is checked within D of the read with H + D <= 30000, at most one process is between create and release, and the file there is its own |
| FileLock.ExclusiveIffWithinStaleLimit | container/cli-tools.ts:809-846 | the two bounds together within the staleness limit is exactly the condition for exclusion on all timely runs |
| FileLock.LateCheckBreaksExclusion | container/process-monitor.ts:130-140 | beyond the limit, a run of two processes that ends with both holding the lock |
| FileLock.AttemptsAreBounded | container/process-monitor.ts:122-151 | on every run no process makes more than ten attempts |
| FileLock.GivesUpAfterTen | container/process-monitor.ts:121-162 | under every interleaving an acquire that ends without the lock and without another error has attempted exactly ten creates |
| FileLock.FreeLockIsTakenAfterWaiting | container/process-monitor.ts:121-162 | a process that waited and has attempts left takes the lock once it is free, stamped with the time then, and gives it back with the file gone |
| FileLock.BusyLockMakesWait | container/process-monitor.ts:130-147 | a lock of another process with a fresh stamp, or none yet, makes an attempt wait without changing anything else |
| FileLock.FileMoves | container/process-monitor.ts:121-162 | the lock file is made only where there was none, stamped only by its maker, and removed only by a release or as stale |
| FileLock.LockLeftBehindIsKeptIff | container/process-monitor.ts:130-145 | the lock of a holder that died survives every interleaving of all other processes up to a time if and only if its stamp is at most 30 seconds old by then |
| FileLock.StaleLockGoes | container/process-monitor.ts:136-140 | beyond that, from any such state an idle process can remove it |
| FileLock.DeathBeforeStampBlocksForever | container/process-monitor.ts:130-145 | the lock of a holder that dies before writing its stamp stays for good, whatever the others do |
| LogRotation.ConservesIffNoLossyStep | container/process-monitor.ts:210-258 | every written line is returned by exactly one reset, in a renamed file, or in the current log, if and only if no step truncates a recreated log, fails to read, or writes to a file already read |
| LogRotation.AtomicAppendsKeepOrderIffNoLossyStep | container/cli-tools.ts:855-871 | with atomic appends and any interleaving of resets of both kinds, the texts in rename order followed by the log are all lines in order, if and only if no step loses a line |
| LogRotation.SupervisorResetsKeepEveryLineInOrder | container/process-monitor.ts:219-251 | the supervisor's own resets never lose or reorder an atomically appended line |
| LogRotation.SplitAppendIsLost | container/process-monitor.ts:180-185 | an append opened before the rename and written after the read is lost |
| LogRotation.ResetDuringAppend | container/cli-tools.ts:855-871 | a line that arrives between the rename and the new log survives the supervisor's reset and is truncated away by the command line tool's |
| Lifecycle.ProcessMonitor.StartEntry | container/process-monitor.ts:383-412 | start() is accepted exactly in stopped or crashed, and only then changes anything |
| Lifecycle.ProcessMonitor.AfterStartLogged | container/process-monitor.ts:414-433 | whether the last run was stable decides between awaiting the reset and spawning at once |
| Lifecycle.ProcessMonitor.AfterResetLogged | container/process-monitor.ts:419-433 | the count is reset without judging the run again, then the child is spawned |
| Lifecycle.ProcessMonitor.Spawned | container/process-monitor.ts:426-460 | a successful spawn's whole new state, with a fresh health interval and the old one cleared |
| Lifecycle.ProcessMonitor.StartHealthMonitoring | container/process-monitor.ts:1084-1101 | the health interval is replaced, never doubled |
| Lifecycle.ProcessMonitor.StopRequested | container/process-monitor.ts:513-525 | stop() goes ahead exactly when neither stopped nor starting |
| Lifecycle.ProcessMonitor.StopEntry | container/process-monitor.ts:532-545 | entering stopping clears the restart timer and reports whether one was pending |
| Lifecycle.ProcessMonitor.StopHealthMonitoring | container/process-monitor.ts:541-545 | the health interval is cleared with its field |
| Lifecycle.ProcessMonitor.AfterKill | container/process-monitor.ts:559-576 | stop() settles and reports only if the exit handler has not done so |
| Lifecycle.ProcessMonitor.OnExit | container/process-monitor.ts:630-704 | the exit handler's whole new state: crash or stop, event, restart |
| Lifecycle.ProcessMonitor.ArmRestart | container/process-monitor.ts:919-935 | the count goes up by one and exactly one restart timer is armed, the old one cleared |
| Lifecycle.ProcessMonitor.OnError | container/process-monitor.ts:706-723 | an error event crashes a running or starting process and nothing else |
| Lifecycle.ProcessMonitor.OnRestartTimer | container/process-monitor.ts:935-955 | the timer clears its field and goes ahead unless stopped or stopping |
| Lifecycle.TimersAndBudget | container/process-monitor.ts:919-937 | on every run the live timers are exactly those in the two fields, and the restart count stays in its budget |
| Lifecycle.ExitIsCrashOrStop | container/process-monitor.ts:630-703 | an exit in any state: a crash exactly from running and unclean, silent exactly when already stopped, else a stop; it schedules a restart exactly when running, unclean, with restarts on and budget left, and then arms one fresh timer |
| Lifecycle.ErrorBeforeExitLosesRestart | container/process-monitor.ts:719-723 | a run in which the error event before a failing exit turns the crash into a stop and the restart is lost |
| Lifecycle.EveryExitIsAccounted | container/process-monitor.ts:630-704 | on every run exits are reported once each as crash or stop unless already stopped, the only other reports are stop()'s, restarts scheduled are exactly the crashes that announce one, and every child spawned is alive or has exited |
| Lifecycle.ScheduledRestartHappens | container/process-monitor.ts:935-955 | a restart timer that fires while crashed brings a new child, through no other call |
| Lifecycle.LongRunGivesBudgetBack | container/process-monitor.ts:414-424 | exactly a run of more than five minutes gives the restart budget back at the next start |
| Lifecycle.FailedSpawnEndsStopped | container/process-monitor.ts:435-497 | a spawn that fails ends in stopped, with nothing spawned or reported |
| Lifecycle.ErrorOnlyCrashes | container/process-monitor.ts:706-723 | an error event takes a running or starting process to crashed and changes nothing else |
| Lifecycle.PhaseMoves | container/process-monitor.ts:383-723 | what the phase becomes in each step; a stop whose phase another call has changed leaves it |
| Lifecycle.TimesAreKept | container/process-monitor.ts:426-460 | on every run the last activity, start and end are those of the last output or spawn, the last spawn, and the last exit after it |
| RestartRate.UndisturbedRunsAreSupervised | container/process-monitor.ts:383-460 | on every run without error events and stop() calls at most one child lives, exactly in running; every unclean exit with budget left schedules its restart; its health is checked exactly when that is on; the rate bound holds |
| RestartRate.RestartRateBound | container/process-monitor.ts:415-424 | with at most one start pending at a time, at most maxRestarts * (1 + T / 300000) restarts are scheduled within T ms |
| RestartRate.OverlappingStartsExceedBound | container/process-monitor.ts:383-424 | for every option set that allows restarts, a run with two overlapping starts that exceeds the bound; no restart timer fires on it, so it does not depend on the restart delay |
| RestartRate.RateBoundIff | container/process-monitor.ts:415-424 | all runs with at most k pending starts stay within the rate if and only if k <= 1 or no restart is possible |
| RestartRate.ResetIsStillJustified | container/process-monitor.ts:414-424 | with one start at a time, when the awaited log entry is written and the count is reset, the last run is still the stable one judged before |
| Lifecycle.StopIsFinalAndReportedOnce | container/process-monitor.ts:513-576 | from a lone stop() entering stopping, under every interleaving of exit, timeout and errors: no spawn, no crash report, no armed timer, process_stopped at most once and exactly once by the time stop() returns, and no health interval left by then |
| Lifecycle.StopIsFinalIffNothingHalfDone | container/process-monitor.ts:935-955 | no spawn without an external start if and only if no callback or start is past its check |
| Lifecycle.CallbackUndoesStop | container/process-monitor.ts:948-955 | from any such state with a callback in its await, a run that spawns a child after the stop |
| Lifecycle.StopCanFinish | container/process-monitor.ts:513-576 | refused or without effect exactly while starting or stopped, stop() can otherwise always run to its end: stopped, reported, no timer left |
| CircularBuffers.CircularBuffer.Push | container/process-monitor.ts:74-82 | the contents become the last `capacity` of the old contents and the item |
| CircularBuffers.CircularBuffer.ToArray | container/process-monitor.ts:84-90 | the contents, oldest first |
| CircularBuffers.CircularBuffer.Clear | container/process-monitor.ts:97-100 | empty contents |
| CircularBuffers.CircularBuffer.RecentLogs | container/process-monitor.ts:1274-1277 | the last `limit` of the contents for a positive limit, all of them for 0, and all but the first ones for a negative limit |
| CircularBuffers.HoldsLastPushedSinceClear | container/process-monitor.ts:64-105 | after any pushes and clears, the last min(n, capacity) items since the last clear, in order |
| CircularBuffers.RecentLogsAreLastPushed | container/process-monitor.ts:1274-1277 | hence the recent logs are the last min(limit, n, capacity) lines since the last clear |
| LineFraming.StreamFramer.ProcessStreamData | container/process-monitor.ts:759-794 | a chunk hands on exactly the lines it completes and keeps the open one |
| LineFraming.StreamFramer.FlushStreamBuffers | container/process-monitor.ts:600-625 | the open line goes out trimmed unless blank |
| Text.TrimTakesSpaceOnly | container/process-monitor.ts:600-625 | trimming takes away white space at both ends, all of it, and nothing else |
| LineFraming.SupervisorLinesIgnoreChunking | container/process-monitor.ts:759-794 | for every chunking, the lines with the flush are the non-empty trimmed lines of the whole text |
| LineFraming.ParseNdjsonStream | sdk/src/ndjson.ts:6-24 | for every chunking, the values yielded and whether it throws depend only on the non-empty trimmed lines of the whole text, up to the first that does not parse |
| LineFraming.PrintThenParse | sdk/src/ndjson.ts:6-24 | values printed one per line come back from any chunking, through either framer |
| Connection.AgentConnection.SendMessage | sdk/src/ws.ts:232-246 | a message goes to the open socket or to the end of the queue, dropping the oldest of more than 1000 |
| Connection.AgentConnection.FlushPendingSends | sdk/src/ws.ts:51-57 | the queue goes out in order and is emptied |
| Connection.AgentConnection.ArmReconnect | sdk/src/ws.ts:59-77 | at most one armed reconnect, counted and numbered |
| Connection.AgentConnection.HandleOpen | sdk/src/ws.ts:79-84 | handlers first, then the queue |
| Connection.AgentConnection.HandleClose | sdk/src/ws.ts:86-90 | the connection is no longer open and a reconnect is scheduled |
| Connection.AgentConnection.Connected | sdk/src/ws.ts:214-220 | the new socket replaces the old one without a check of close() |
| Connection.AgentConnection.CloseByUser | sdk/src/ws.ts:248-255 | close() empties the queue, clears the timer and lets the socket go |
| Connection.OneSocketAtATime | sdk/src/ws.ts:200-227 | on every run at most one usable socket, and none while a reconnect or a ticket is pending |
| Connection.OpenSendsHandlersThenQueue | sdk/src/ws.ts:79-84 | on an open the handlers' messages and then the whole queue go out, in order, and nothing else changes but the counter |
| Connection.ReconnectsAreNumberedAndBounded | sdk/src/ws.ts:59-77 | between opens the reconnects are numbered 1, 2, ... and at most maxRetries |
| Connection.KeepsTrying | sdk/src/ws.ts:59-95 | on every run, until it is closed or its retries are used up, a connection has a usable socket, a ticket being fetched or an armed reconnect |
| Connection.FailureSchedulesIff | sdk/src/ws.ts:59-95 | a failed ticket, a close or an error announces exactly one next reconnect and arms it if one is allowed and none is armed, and otherwise none |
| Connection.CallbacksAreAsRegistered | sdk/src/emitter.ts:5-30 | on every run a callback is called at an open, once, exactly when it was last registered and not last removed |
| Connection.AddThenRemove | sdk/src/emitter.ts:5-30 | a callback added twice is there once, and removing it takes it away and no other |
| Connection.SendsInOrder | sdk/src/emitter.ts:25-30 | callbacks send in the order of their registration |
| Connection.CloseIsFinalIffNotFetching | sdk/src/ws.ts:200-255 | after close() of the connection or of its session no socket is made if and only if no ticket was being fetched |
| Outbox.OutboxConservation | sdk/src/ws.ts:41-57 | before any close(), each message is exactly one of transmitted once, queued, dropped; order is kept; the dropped are the oldest; the queue never exceeds 1000; messages from callbacks and stray handshakes do not disturb this |
| Outbox.DropsOnlyWhenFull | sdk/src/ws.ts:239-245 | only a send to a queue of 1000 drops a message, the oldest |
| Outbox.CloseLosesQueue | sdk/src/ws.ts:248-255 | on every run after a close(), no message passed to send() before it goes out any more, even when a late socket opens |
| Session.HandshakeComesFirst | sdk/src/session.ts:186-214 | while the session is not closed, the first messages on every socket are session_init, then get_conversation_state, as enabled, when no catch-all or state callback sends |
| Session.HandshakeComesFirstIff | sdk/src/session.ts:192-214 | on every open of every run, exactly what the socket gets: with the session open, the handshake first if and only if those callbacks send nothing then or themselves begin with it; with the session closed, the callbacks' messages and the queue without a handshake |
| Session.NoisyCallbackComesFirst | sdk/src/emitter.ts:25-30 | a catch-all callback, or one on the session's state, that sends on open gets ahead of the handshake |
| Session.LateSocketIsNotGreeted | sdk/src/session.ts:375-377 | the session closed while the ticket is being fetched: the socket opens and nothing is sent on it |
| Session.EachConnectionRuns | sdk/src/session.ts:170-217 | whatever is done with a session over any closing and reconnecting, each of its connections makes a run of its own |
| Session.SessionHandshakeComesFirst | sdk/src/session.ts:170-217 | hence on the connection in the session's field the handshake is first on every socket, stray handshakes included |
| Session.SessionOpenIsExact | sdk/src/session.ts:204-214 | every open of every connection is as stated for one connection, and exactly the one in the field is greeted |
| Session.ClosingStartsAnew | sdk/src/session.ts:375-377 | after any use of the session, closing detaches every connection and drops the callbacks on its state; the next connection starts without them |
| Session.StraysGoToCurrent | sdk/src/session.ts:204-214 | an open on a connection the session has left sends its handshake to the connection in the field and changes no other |
| Session.HandshakeGoesAstray | sdk/src/session.ts:375-377 | close while fetching, connect again: the first socket opens ungreeted and its session_init waits in the second connection's queue |
| PhaseTimeline.SessionStateStore.ApplyWsMessage | sdk/src/state.ts:185-423 | the new timeline and the events emitted for each message |
| PhaseTimeline.SessionStateStore.EmitPhaseChanges | sdk/src/state.ts:501-522 | one event per new or changed phase, in timeline order |
| PhaseTimeline.HasPhaseChanged | sdk/src/state.ts:527-534 | true exactly when status or the list of file statuses differs |
| PhaseTimeline.EventStreamIsFaithful | sdk/src/state.ts:485-535 | after any messages, with full replacements, phase i has id phase-i and a mirror fed by the events alone shows every current phase's status and file statuses |
| PhaseTimeline.EventsSayWhatHappened | sdk/src/state.ts:501-522 | each event shows a current phase, as added exactly if its id was not there before |
| PhaseTimeline.NamesStayDistinct | sdk/src/state.ts:450-483 | distinct names stay distinct, and phases keep place and name |
| PhaseTimeline.RepeatedMessageChangesNothing | sdk/src/state.ts:438-483 | a phase or file message applied twice is applied once, and the second time is silent |
| PhaseTimeline.PhaseFollowsItsMessages | sdk/src/state.ts:450-483 | after any messages each phase's description, status and files depend only on its own messages, the file messages and replacements |
| PhaseTimeline.CompletedIffLastValidated | sdk/src/state.ts:263-352 | a phase shows as completed exactly when the last message about it was phase_validated, or there was none and it was completed before |
| PhaseTimeline.StatusIsOfLastMessage | sdk/src/state.ts:263-352 | a phase shows as generating, implementing or validating exactly when the last message about it was the one of that stage, or there was none and it showed so before |
| PhaseTimeline.FileMessageIs | sdk/src/state.ts:438-445 | a file message sets the status of exactly the files with its path, in every phase |
| PhaseTimeline.ListedFilesAre | sdk/src/state.ts:459-463 | a phase message with files shows exactly these, completed with phase_validated and pending otherwise |
| PhaseTimeline.SeedShows | sdk/src/state.ts:115-159 | what a replacement shows: completed phases and generated files as completed, the rest under way or waiting while the agent generates, else cancelled |
| PhaseTimeline.ValidatedFilesDoneIff | sdk/src/state.ts:459-472 | validation completes a phase's files exactly when it lists files or all were done |
| PhaseTimeline.SilentIffSameLooks | sdk/src/state.ts:501-534 | no event exactly when no phase is added and all keep status and file statuses |
| PhaseTimeline.RenameGoesUnreported | sdk/src/state.ts:494-498 | a replacement that renames a phase emits nothing |
| FileTree.BuildFileTree | sdk/src/session.ts:39-87 | the insertion loop builds the specified tree |
| FileTree.ComponentsOfName | sdk/src/session.ts:50-57 | a path without a slash is its own component, unless empty |
| FileTree.ComponentsOfTwo | sdk/src/session.ts:50-57 | a slash separates the components on its two sides; with the row above this determines the components of every path |
| FileTree.CanonicalIffNoEmptyPart | sdk/src/session.ts:50-57 | a path is its components joined by slashes exactly when it is empty or has no empty part |
| FileTree.TreeIsCorrect | sdk/src/session.ts:39-87 | leaves are exactly the paths with a non-empty component, as a multiset, reached through their components; siblings sorted, directories first and distinct, none empty; each file lies in the directory whose path, a slash and its name are its own path without empty parts |
| FileTree.TidyTreesWithSameLeaves | sdk/src/session.ts:70-84 | such a tree is determined by its leaves |
| FileTree.OrderOfPathsDoesNotMatter | sdk/src/session.ts:49-68 | reordering the list gives the same tree when no two different paths share their components |
| FileTree.SameComponentsKeepListedOrder | sdk/src/session.ts:55-57 | paths with equal components appear in listed order |
| FileTree.OrderIsIrrelevantIffNoSharedComponents | sdk/src/session.ts:49-84 | that condition is exact |
| Workspace.WorkspaceStore.ApplyStateSnapshot | sdk/src/workspace.ts:62-68 | the files become those of the snapshot, one reset event with their number |
| Workspace.WorkspaceStore.ApplyFileUpsert | sdk/src/workspace.ts:71-76 | a usable file is stored and reported; a malformed one changes nothing |
| Workspace.WorkspaceStore.ApplyWsMessage | sdk/src/workspace.ts:78-95 | which messages replace, which upsert, which leave the files alone |
| Workspace.WorkspaceStore.Paths | sdk/src/workspace.ts:43-45 | the paths of exactly the stored files, strictly ascending, whatever order the map lists them in |
| Workspace.WorkspaceStore.Tree | sdk/src/session.ts:103-103 | the session's tree shows each stored file with a component exactly once, in the directory its path names, and nothing else |
| Workspace.ReadGivesLastWrite | sdk/src/workspace.ts:47-95 | after any messages a path reads as its last write since the last snapshot |
| Workspace.ChangesAreReported | sdk/src/workspace.ts:62-95 | a message that changes what a path reads as reports that path, or a reset with the number of files there are now; nothing else is reported |
| Text.BeforeIsUnitOrder | sdk/src/workspace.ts:43-45 | the order of the paths is that of their UTF-16 code units, one by one |
| Workspace.ListIsUnique | sdk/src/workspace.ts:43-45 | a set of paths has one ascending list |
| Workspace.TreeDependsOnFilesOnly | sdk/src/session.ts:103-103 | so the tree depends only on which files there are, even where paths share components |
| ErrorStore.ErrorStorage.StoreError | container/storage.ts:305-341 | a store updates the row with its hash or adds one; a failure changes nothing |
| ErrorStore.ErrorStorage.StoreWithRetry | container/storage.ts:126-148 | the retrying wrapper stores once if any of its attempts works, else not at all |
| ErrorStore.ErrorStorage.ClearErrors | container/storage.ts:409-422 | removes exactly the instance's rows and reports how many |
| ErrorStore.ErrorStorage.GetErrorSummary | container/storage.ts:368-407 | on any table, over the grouped rows: total, unique and repeated errors, equal to those of the raw rows; level counts that add up to the total; the latest and the oldest timestamp |
| ErrorStore.GroupsAggregate | container/storage.ts:275-305 | each hash with rows has one group, with the sum of their counts, the greatest of their ids, timestamps and outputs, and the level and message of one of them |
| ErrorStore.SelectionAddsUp | container/storage.ts:275-305 | on any table the grouped query has one row per hash, the raw rows' total and hashes, latest first |
| ErrorStore.OneRowPerHash | container/storage.ts:275-305 | on a deduplicated table grouping is the identity and the query a permutation of the instance's rows, one per hash |
| ErrorStore.SummaryCountsStores | container/storage.ts:321-407 | on every run one row per instance and hash; the summary's total is the successful stores since the last clear, its unique errors their hashes, and each error counts its hash, shows the first message and the last time |
| ErrorStore.IdsStayDistinct | container/storage.ts:236-272 | on every run no two rows share an id and later rows have higher ones |
| LogStore.LogStorage.constructor | container/storage.ts:530-533 | numbering goes on after the highest number in the file, or from 1 |
| LogStore.LogStorage.StoreLog | container/storage.ts:535-557 | a number is used up even when the insert fails |
| LogStore.LogStorage.StoreLogs | container/storage.ts:559-584 | all or nothing: on success consecutive numbers for all logs, else the rows as they were |
| LogStore.LogStorage.ClearLogs | container/storage.ts:620-635 | removes exactly the instance's rows and reports how many |
| LogStore.LogStorage.CleanupOldLogs | container/storage.ts:698-708 | removes exactly the expired rows and reports how many |
| LogStore.NumberedIsSound | container/storage.ts:476-491 | the next numbers are free, so the UNIQUE constraint never fires |
| LogStore.NumbersStayOrdered | container/storage.ts:530-584 | on every run numbers are distinct, increasing in insertion order and below the counter; none is reported twice between openings |
| LogStore.NewRowIsHighest | container/storage.ts:535-544 | a stored log is kept with all its fields, an empty source as none, under a number above all present ones |
| LogStore.ReopeningReusesNumbersIffLastIsGone | container/storage.ts:530-533 | reopening goes on where it stopped exactly when the last number used is still present |
| LogStore.TableHoldsWhatWasStored | container/storage.ts:535-584 | on every run an instance's rows are exactly what was stored and not cleared or expired since, in order |
| LogStore.SinceExactly | container/storage.ts:698-708 | expiry removes the rows older than the cutoff and no others |
| LogStore.PageShows | container/storage.ts:586-617 | a page is the next `limit` rows newest first, with the highest number, and hasMore exactly when rows remain |
| LogStore.OtherPages | container/storage.ts:583-588 | without a limit, or with 0, up to 100 rows; without an offset the newest first; a negative limit means all the rest, a negative offset none |
| LogStore.PagesShowEveryLogOnce | container/storage.ts:586-617 | paging until hasMore is false shows every kept log once in descending order |
| LogStore.StoresBetweenPagesSkipNothing | container/storage.ts:586-617 | after stores between two pages the next one, the last included, is that of the old list with the arrivals in front: it repeats as many rows as arrived and skips none |
| Retry.BackoffStaysInRange | sdk/src/retry.ts:22-27 | a wait lies between the floors of 0.8 and 1.2 times its base |
| Retry.BaseDoubles | sdk/src/retry.ts:22-23 | the base is the initial delay at first and doubles with each attempt, up to the cap |
| Retry.EveryWaitInRangeOccurs | sdk/src/retry.ts:22-27 | every whole number in the range below the upper end is some draw's wait |
| Retry.TotalWaitIsBounded | sdk/src/retry.ts:22-27 | n waits total at most 1.2 * n * maxDelay and at most 1.2 * initial * (2^n - 1) |
| Retry.Fetch | sdk/src/http.ts:100-162 | at most maxRetries + 1 calls; ends with the first outcome not worth retrying or the last allowed one; makes no call exactly when maxRetries is negative; succeeds exactly when an allowed call is answered and all before it are worth retrying; its waits and their bounds |
| Retry.WorthRetrying | sdk/src/http.ts:100-162 | retried are exactly network failures and statuses 500 to 599, with retrying on |
| Retry.ResultTells | sdk/src/http.ts:100-162 | the caller can tell an answer, a status, a network failure and any other error apart |
| Migration.ApplyMigrationAlgorithm | debug-tools/migration_tester.py:45-121 | the final messages and the counts, with original = final + duplicates + memos removed |
| Migration.TimeOfId | debug-tools/migration_tester.py:34-43 | the time in an id is the number between its first two dashes or after its only one, after conv, and 0 if that is no number |
| Migration.TimesNeedThePrefix | debug-tools/migration_tester.py:34-43 | any other id has time 0 |
| Migration.KeyWithoutId | debug-tools/migration_tester.py:57-66 | a message without an id is known by its role and at most the first hundred characters of its text |
| Migration.MemoIff | debug-tools/migration_tester.py:84-92 | a memo is exactly a message whose text contains one of the two marks |
| Migration.Deduplicate | debug-tools/migration_tester.py:52-70 | the loop keeps the messages whose key was not seen before |
| Migration.UniqueKeepsKeys | debug-tools/migration_tester.py:52-70 | deduplication keeps every key exactly once |
| Migration.UniqueKeepsFirsts | debug-tools/migration_tester.py:52-70 | and keeps the first message of each key |
| Migration.EveryIdKeptIffNoneShadowed | debug-tools/migration_tester.py:57-66 | no conversation id is lost if and only if no message without one takes its key first |
| Migration.ShadowedIdIsLost | debug-tools/migration_tester.py:57-66 | two messages of which the second's id is lost |
| Migration.MigratedIsSortedAndDistinct | debug-tools/migration_tester.py:72-103 | the result is sorted by timestamp and repeats no key |
| Migration.MigratedKeepsExactly | debug-tools/migration_tester.py:79-104 | exactly the first messages of each key survive, memos only up to 25 keys |
| Migration.MigratedKeepsOrder | debug-tools/migration_tester.py:72-73 | messages of the same time keep their order |
| Migration.MigrationIsIdempotent | debug-tools/migration_tester.py:45-121 | migrating again changes nothing |

## Left out

- Spawning, signals, port probes, health-check decisions, HTTP and sockets themselves: environment steps that may succeed, fail or be late. A health check that kills an unresponsive child shows only as that child's exit.
- Byte-level UTF-8 decoding, `JSON.parse`, SHA-256, the cleaning of messages before hashing, SQLite's own engine: text is already decoded, parsers are parameters, a hash is a given string, tables are sequences of rows.
- Log trimming (it races with appends and resets), `cleanup()`, console output, command line parsing, fatal-error patterns, `parseJsonLog`.
- `SimpleMutex` and the blueprint rendering; `waitFor`, payload normalisation and message routing of the connection; `normalizeRetryConfig` and the access-token cache.
- FileLock: the lock, like `LogRotation` and the runs of `Lifecycle` and `Connection`, is a state machine of interleaved steps. Opening and reading the lock file is one step; a holder that dies without unlinking is outside the timing hypothesis.
- Lifecycle.ProcessMonitor.ArmRestart: the delays of the restart timer and of the kill timeout are not modelled; an armed timer may fire at any later step, so what holds of every run holds for every delay, and no run given as a counterexample lets a restart timer fire.
- CircularBuffers.CircularBuffer.constructor: does not model capacity 0, where every index is NaN in the source.
- FileTree.BuildFileTree: builds directories as values with a list of children in insertion order, so it does not capture the in-place update of nested `Map`s and its aliasing; `localeCompare` is a parameter, assumed a total preorder, and one without ties between different names where the order of the list is claimed not to matter.
- PhaseTimeline.SessionStateStore.ApplyWsMessage: does not model the fields of the session state other than the phases, `clear()`, nor property names inherited by the generated-files map.
- Workspace.WorkspaceStore.ApplyStateSnapshot: takes the state's files as a list in the order of its map, and does not model `snapshot()` or `clear()`.
- Connection.OneSocketAtATime: assumes what section 4 of the WHATWG WebSockets Standard promises, that an error event is immediately followed by the close event.
- Session.HandshakeComesFirst: callbacks are modelled by the messages they send on open on their own connection; callbacks that change the listener sets, close or reconnect, throw, or send through a session without a connection are not modelled.
- Outbox.OutboxConservation: messages sent from the application's own open handlers are not numbered, so they are not counted; `send` on a socket is assumed not to throw.
- LogStore.NumbersStayOrdered: assumes one writer per database file, as the store itself does; metadata, process ids of queries and the statistics query are not modelled, and expiry compares times as given numbers.
- ErrorStore.GroupsAggregate: the level and message of a group of several rows are those of its first row, where the database may pick any; timestamps compare as text, which for the ASCII form they are written in is the database's byte order too, and rows of the same time keep their order. Age-based deletion is not modelled. Exact counts per level by level stored are not claimed, because the hash joins message and level without a separator.
- Retry.BackoffStaysInRange: delays are exact reals, so rounding of floating point numbers is not modelled; an infinite retry limit is not either in `Fetch`.
- Migration.ApplyMigrationAlgorithm: `int()` is a parameter and roles and ids are strings or missing; the longest message and the printed analysis are not modelled.
