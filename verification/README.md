# Terminal workbench: catalogs, agent runs, browsing and remote shells

A Dafny model of the parts of the desktop application that keep state over time or translate
between formats, with proofs of what those parts promise. `dafny verify dfyconfig.toml` checks
everything. There are four groups of modules.

**The durable catalog store** (`Json`, `Durable`, `CatalogViews`, `Recovery`, `CrashSafety`,
`Secrets`, `Migration`). A catalog is a primary file, its `.bak` and a secret-free mirror.
`Durable.Disk` has the code one file-system step at a time. Each operation is specified by its
*trail*, the states it passes through, so that "a crash after any step" is "any state of the
trail"; a file being written or copied is unreadable at first, a rename is atomic.
`CatalogViews` projects the trails to one catalog, `Recovery` runs saves, loads and start-ups
with crashes inside any of them, `CrashSafety` says what survives, `Secrets` that the mirror
directory stays free of secrets, and `Migration` does the same as `CrashSafety` for the one-time
copy out of an older product's directories.

**Agent runs** (`AuditChain`, `EventStream`, `StreamFrames`, `RunLife`, `RunStore`, `Writers`,
`Cancellation`, `RunExamples`, `AgentRuns`, `SessionStores`). The event stream is a generator
that runs from one suspension point to the next, interleaved with appends, status changes and
other streams. `RunLife` has what can happen to one run: it is cancelled, continued or re-armed
from disk, its loops set its status and append events, a cancelled loop unwinds or goes on, a
stall fails it, a watcher gets its answer. `RunStore` has the table of runs on values, `Writers`
says how many runs may write to a session, `Cancellation` what a cancel leaves, and
`RunExamples` has the runs of the store in which a guard fails; `AgentRuns` and `SessionStores`
have the mutable objects, proved to do what the values do. The audit log's hash is a parameter
of which only the form of its outputs is assumed: where injectivity is needed, the conclusion is
"or two rows of these two logs collide".

**Browsing** (`BrowserHistory`, `LoopbackTunnels`). The move-to-front history against the trace
of visits and clears, and the tunnel tables, where a navigation is two steps with others in
between.

**Remote shells** (`Strings`, `ShellWords`, `ShellCommands`, `CdArgument`, `UnixPaths`,
`CwdTracking`, `RemoteListing`, `StreamCopy`). A lexer for the words of a POSIX shell, against
which quoting is undone at every depth; the tracked working directory against lexical pathname
resolution; the NUL-framed listing; the chunked copy with throttled progress.

## Where the code does less than one might expect

Each of these is a theorem with its exact condition, not a remark.

- A save that is cut off between its two writes leaves the mirror one document behind. If the
  next save is cut off too, start-up brings back the older document although the newer one had
  been shown (`CrashSafety.TwoCrashesRollBack`). A cut-off save is all or nothing exactly when
  the mirror has no records or holds the old, the stripped old or the new document
  (`CrashSafety.SaveIsAllOrNothing`).
- Recovery from the `.bak` is crash-safe exactly unless the primary is there but unreadable and
  the `.bak` is the only source: the first step of the write copies the unreadable file over it
  (`CrashSafety.RecoveryIsCrashSafe`).
- Behind an unhashed audit row the writer starts again from "genesis", and the verifier then
  rejects the log, exactly when there are hashed rows before it (`AuditChain.WriteKeepsChain`).
- A run id taken over from a run of another session loses sight of that run. The next run of its
  session then gets a second writer beside it exactly when the lost run is active or can become
  so without an answer, or another run of that session survives being superseded
  (`Writers.LostRunMattersIfItWrites`; `RunExamples.TakenOverIdIsLost`).
- Continuing a run, or re-arming the request that a saved run was waiting for, lets the session
  get a second writer exactly when another of its runs is active or can become so
  (`Writers.ContinueNeedsQuietSession`, `RearmNeedsQuietSession`;
  `RunExamples.ContinuedBesideRunning`, `ContinuedBesideWatched`, `RearmedBesideRunning`).
- Superseding a run does not end a watcher that waits for an approval, nor a loop that `task`
  does not refer to, nor the watcher of a run that has failed. A new run stays the only writer
  exactly when its session has none of these (`Writers.SupersedeNeedsNoWatcher`;
  `RunExamples.LateApprovalRevives`). For the same reason a run that is over may become active
  again without being continued (`Cancellation.OverIsOver`, `CancelIsFinal`).
- The loop that a cancel cuts off appends a "cancelled" of its own, and makes a cancelled run of
  one that a stall has failed (`RunExamples.LiveLoopCancelsAgain`, `StallEndsCancelled`). A cancel
  leaves one such event exactly when the run had no task, watcher or stray loop left
  (`Cancellation.CancelLeavesOneEvent`); the store itself appends at most one for each life of a run
  (`NeverCancelledTwice`).
- A stream of a finished run ends without the last events exactly when they were appended while
  it was sending a batch or a status frame (`EventStream.EveryQuietStreamFinishes`, with a run
  that shows it in `LastEventIsMissed`).
- A bare ".." at home or at the root leads home, and repeated leading "~/" count as one
  (`CwdTracking.CdIsLexical`); a shown path leads back exactly when nothing is trimmed from its
  end and it does not begin with "~/~/" (`CwdTracking.ShownPathLeadsBack`).

## Model

| member | source | states |
|---|---|---|
| Json.CountRecords | src-tauri/src/durable.rs:119-156 | the accumulating loops count the lists at nine fixed places of the document, and nothing else |
| Json.NineLists | src-tauri/src/durable.rs:126-155 | the count of an object document is the sum of the lengths of the nine lists, by name |
| Json.StripKeepsRecordCount | src-tauri/src/durable.rs:119-156 | the mirror copy of any document counts as many records as the document, so it can stand in for it in the recovery test |
| Json.StripKeepsEverythingElse | src-tauri/src/durable.rs:213-231 | for every path into a document: nothing is found behind a secret key, anything else is found as it was, stripped |
| Json.StripLeavesNoSecret | src-tauri/src/durable.rs:213-231 | no object at any depth of a stripped document has a secret member |
| Json.StripFixesExactlySecretFree | src-tauri/src/durable.rs:213-231 | stripping changes a document if and only if it holds a secret, and is idempotent |
| Json.CredentialsAreGone | src-tauri/src/durable.rs:218-227 | the four credentials, by name, are gone from every place of a stripped document, and a member of another name next to them is not |
| Durable.Disk.AtomicWrite | src-tauri/src/durable.rs:183-204 | passes through exactly the crash states of temporary file, copy to `.bak`, remove, rename; ends with the new document, the old one in the `.bak`, no temporary file, and every other file as it was |
| Durable.Disk.ReplaceFile | src-tauri/src/durable.rs:206-211 | the destination is absent in between when there was one; afterwards it has the temporary file's content, which is gone |
| Durable.Disk.SaveValue | src-tauri/src/durable.rs:239-259 | refused as emptying if and only if records are to be kept, the document counts none and the primary counts some; a refusal, or a bad name, changes no file; otherwise the primary holds the document and the mirror its stripped form, written in that order |
| Durable.Disk.RestoreIfNeeded | src-tauri/src/durable.rs:261-292 | writes to the primary if and only if it counts no records and the mirror counts some, or it is missing or unreadable and the `.bak` counts some; what it writes is the mirror's document, else the `.bak`'s |
| Durable.Disk.LoadValue | src-tauri/src/durable.rs:233-237 | restores first and then reads the primary, an empty object when there is none |
| Durable.Disk.MigrateLegacyDir | src-tauri/src/durable.rs:354-369 | copies the catalogs that have records over those that have none, and reports their names |
| Durable.Disk.MigrateOnce | src-tauri/src/durable.rs:340-352 | does nothing once the marker is there; otherwise goes through the old directories and then writes the marker |
| Durable.Disk.StartUp | src-tauri/src/durable.rs:311-324 | migration, one restore of every catalog, a notice when anything was done, at the granularity of crash states |
| Durable.Disk.PersistNotice | src-tauri/src/durable.rs:294-298 | for a non-empty list the notice holds exactly these names in order, for an empty one no file changes |
| Durable.CatalogNamesAreValid | src-tauri/src/durable.rs:14-25 | every catalog name passes the name check and ends so that temporary and `.bak` names are no catalog's |
| Durable.RefusedNames | src-tauri/src/durable.rs:158-167 | a name is refused if and only if it is empty or has a separator or two dots anywhere in it |
| CatalogViews.OtherWriteUnseen | src-tauri/src/durable.rs:169-204 | a write to another file changes none of a catalog's three files at any of its steps |
| CatalogViews.SaveSeen | src-tauri/src/durable.rs:239-259 | every crash state of a save, projected to the catalog's three files |
| CatalogViews.RestoreSeen | src-tauri/src/durable.rs:261-292 | every crash state of a restore, projected to the catalog's three files |
| Recovery.StartupSeen | src-tauri/src/durable.rs:311-324 | a whole start-up is, for each catalog, exactly one restore of it, at every step and at the end |
| Recovery.StartupReports | src-tauri/src/durable.rs:311-323 | once the migration has run, a start-up reports a catalog if and only if it had something to recover |
| Recovery.ExecSeen | src-tauri/src/durable.rs:233-324 | every event of a run, cut off or not, does to a catalog's files what the one-catalog step relation says |
| Recovery.RunReaches | src-tauri/src/durable.rs:233-324 | every run of the store is a run of the one-catalog step relation |
| CrashSafety.RecordsSurvive | src-tauri/src/durable.rs:183-324 | from records in the primary, over every run of record-keeping saves, loads and crashes: whenever the system is up, the primary is readable, has records, and is a saved document or its stripped form |
| CrashSafety.RecoveryIsCrashSafe | src-tauri/src/durable.rs:200-202 | a recovery cut off anywhere leaves the next one the same result, if and only if the primary is not unreadable with the `.bak` as only source |
| CrashSafety.BootsKeepTrying | src-tauri/src/durable.rs:261-292 | any number of start-ups that are cut off change nothing in what a finished one recovers |
| CrashSafety.AcceptedSaveIsFinal | src-tauri/src/durable.rs:233-292 | an accepted save, also of an empty document, is what every later load and start-up sees; a refused one changes no file |
| CrashSafety.NothingToLoseIsAccepted | src-tauri/src/durable.rs:246-258 | where the primary has no records every document is accepted in either mode, and every later load sees it |
| Secrets.MirrorNeverHoldsSecrets | src-tauri/src/durable.rs:254-257 | over every run of saves, loads and start-ups with crashes at any step, no document in the mirror directory, `.bak` and temporary files included, has a secret at any depth |
| CrashSafety.OneCatalogAtATime | src-tauri/src/durable.rs:233-292 | saves and loads leave every other catalog alone, and after a load the next restore has nothing to do |
| CrashSafety.SaveIsAllOrNothing | src-tauri/src/durable.rs:239-292 | over every cut-off point, every number of failed start-ups and every later run without saves: old, stripped old or new document, if and only if the mirror is not stale |
| CrashSafety.DeleteIsAllOrNothing | src-tauri/src/durable.rs:247-292 | an explicit delete that is cut off leaves the old document, its stripped form or the empty one for good; a finished one is never undone |
| CrashSafety.TwoCrashesRollBack | src-tauri/src/durable.rs:253-257 | after a crash between the two writes and one in the next save, the older document comes back although the newer one had been loaded |
| Migration.MigrateDirsKeeps | src-tauri/src/durable.rs:346-369 | at every step the catalog that is wanted in the end stays the same, and records that are there are never overwritten |
| Migration.MigrateDirReports | src-tauri/src/durable.rs:359-367 | a catalog is reported if and only if the old directory's counts records and its own counted none |
| Migration.MigrationSurvivesCrashes | src-tauri/src/durable.rs:311-369 | however many start-ups are cut off, the one that finishes leaves a catalog with its own records, or those of the first old directory that has some |
| AuditChain.VerifyChain | agent-sidecar/app/state.py:442-468 | accepts exactly the logs whose hashed rows form a chain back to "genesis", and otherwise points at the first row that breaks it and says how |
| AuditChain.HeadBindsChain | agent-sidecar/app/state.py:450-467 | two chains with the same last hash are the same chain, unless a row of the one and a row of the other have different material and the same hash |
| AuditChain.AcceptedLogIsBound | agent-sidecar/app/state.py:419-468 | two accepted logs with the same last hash have the same hashed rows (time, event, payload) in the same order, unless a hashed row of the one collides with a hashed row of the other |
| AuditChain.AuditLog.Write | agent-sidecar/app/state.py:425-440 | appends one row with the given time, event and payload, the hash of the last row or "genesis", and the hash of these four |
| AuditChain.WriteKeepsChain | agent-sidecar/app/state.py:419-440 | a write keeps an accepted log accepted if and only if the log has no hashed row or does not end in an unhashed one |
| AuditChain.WriterIsAccepted | agent-sidecar/app/state.py:410-468 | unhashed rows of the old schema followed by any number of writes form an accepted log of exactly that many rows |
| AuditChain.WritesAreRecorded | agent-sidecar/app/state.py:425-438 | over any number of writes the rows are what was there before and then the given entries, one for each and in order |
| EventStream.EveryRunIsReachable | agent-sidecar/app/main.py:503-555 | every stream stays in step with the log under every interleaving of appends, status changes and other streams |
| EventStream.StreamIsLossless | agent-sidecar/app/main.py:503-555 | a stream has delivered exactly the events from its start cursor to its cursor, in order and once each; a pull from there gives the rest; its end frame carries that cursor |
| EventStream.NoLostWakeUps | agent-sidecar/app/state.py:139-168 | a stream suspended on a waiter that is not set has no undelivered event |
| StreamFrames.StatusIsTold | agent-sidecar/app/main.py:503-553 | over every interleaving: each frame's cursor is where the reader then stands, a status frame tells another status than the one before it, an end frame repeats the last one told, and a stream that waits or has ended has told one |
| StreamFrames.ChangeIsTold | agent-sidecar/app/main.py:520-537 | a status that differs from the last one told is the next frame as soon as the stream looks at the run |
| StreamFrames.EndsExactlyWhenOver | agent-sidecar/app/main.py:538-555 | behind that the stream ends if and only if the run is completed, failed, cancelled or idle; else it sends what is new, or waits |
| StreamFrames.LogIsWhatWasAppended | agent-sidecar/app/state.py:139-146 | the log holds the kinds and payloads of the appends, one for each and in order |
| EventStream.QuietStreamFinishes | agent-sidecar/app/main.py:520-555 | once the run is over, a stream ends after a bounded number of resumptions, with the whole log delivered if and only if it was up to date when the run fell quiet |
| EventStream.EveryQuietStreamFinishes | agent-sidecar/app/main.py:503-555 | the same for every stream in every reachable state, resumed within the run of all streams |
| EventStream.LastEventIsMissed | agent-sidecar/app/main.py:508-554 | a reachable stream that ends without the last event: cancelled while it was sending its first batch |
| AgentRuns.AgentRun.AppendEvent | agent-sidecar/app/state.py:139-146 | the event gets the next number, and every registered waiter is set |
| AgentRuns.AgentRun.PullEvents | agent-sidecar/app/state.py:148-151 | a slice as Python slices, also for negative cursors and ones past the end |
| AgentRuns.AgentRun.PullWithCursor | agent-sidecar/app/main.py:473-474 | the batch is everything from the cursor on, and the returned cursor never goes back and leaves nothing undelivered |
| AgentRuns.AgentRun.BeginWait | agent-sidecar/app/state.py:153-158 | registers a waiter exactly when there is no news; no waiter that is not set lags behind the log |
| AgentRuns.AgentRun.EndWait | agent-sidecar/app/state.py:159-168 | removes that waiter and no other, and tolerates its absence |
| AgentRuns.AgentRun.Supersede | agent-sidecar/app/state.py:189-201 | an active run becomes cancelled with one event and its task is cancelled; any other run is left alone, pending requests too |
| AgentRuns.AgentRun.Stop | agent-sidecar/app/state.py:354-373 | the run is over, its task is cancelled, its three slots are empty, each pending future is resolved and keeps an answer it already had, and a watcher is told that it is cancelled |
| AgentRuns.AgentRun.Restart | agent-sidecar/app/main.py:340-359 | the run is running again with a new task, after the attachments event if there is one; an old task that is not done is left to itself |
| AgentRuns.AgentRun.RearmWait | agent-sidecar/app/agent/graph.py:139-202 | a run without pending requests gets the saved one as a new pending future, a waiting status and, unless one is busy, a watcher; a run with a pending request is left as it is |
| AgentRuns.AgentRun.Deliver | agent-sidecar/app/agent/loop.py:3304-3333 | the first answer to a pending request counts and reaches its watcher; a request that is gone or answered changes nothing |
| AgentRuns.AgentRun.WakeWatcher | agent-sidecar/app/agent/graph.py:225-270 | a cancelled wait ends the run, an answer starts a loop that first looks at the cancel flag, an approved command is sent to the host whatever the flag says |
| AgentRuns.AgentRun.UnwindTask | agent-sidecar/app/agent/loop.py:924-926 | a cancelled loop makes the run cancelled and appends its own events when the cancellation hits inside its handler |
| AgentRuns.AgentRun.SwallowCancel | agent-sidecar/app/subagent/investigator.py:192-195 | a loop that catches its cancellation is live again, as the run's own or as a stray one |
| AgentRuns.AgentRun.FailStalled | agent-sidecar/app/agent/stall.py:94-101 | only a running run fails, and its task is cancelled |
| AgentRuns.EventGenerator.Resume | agent-sidecar/app/main.py:503-555 | the generator object goes from one suspension point to the next as the stream on values does, with its waiter registered while it waits |
| AgentRuns.AppendBeside | agent-sidecar/app/state.py:139-146 | an append wakes every stream that waits and keeps each registered, as in the world of all streams |
| AgentRuns.ResumeBeside | agent-sidecar/app/state.py:153-168 | resuming one generator is one step of that world: no other generator of the run notices |
| Writers.OneWriterPerSession | agent-sidecar/app/state.py:189-349 | over every run of create, resume, hydrate, re-arm, cancel, continue, answers, stalls, unwinding and loop steps under the stated guards, no session has two active runs, counting also runs the table has lost |
| Writers.SupersedeNeedsNoWatcher | agent-sidecar/app/state.py:203-208 | a new or resuming run, whatever its id, stays the only writer of its session through all later steps of hosts and loops, if and only if no run of the session has a loop or a watcher that survives being superseded |
| Writers.UnsafeIdMakesTwoWriters | agent-sidecar/app/state.py:210-338 | for new and resuming runs alike: taking over an id and starting the next run of its holder's session makes two writers at once if and only if the holder is another session's active run |
| Writers.LostRunMattersIfItWrites | agent-sidecar/app/state.py:224-236 | over all later steps: the same leads to two writers if and only if the lost run is active or can become so without an answer, or another run of its session survives being superseded |
| Writers.StaysSingleMeansApart | agent-sidecar/app/state.py:189-208 | in any store: no session ever gets two writers from hosts and loops alone if and only if no two of its runs are active or can become so |
| Writers.ContinueNeedsQuietSession | agent-sidecar/app/main.py:321-342 | continuing a run, in memory or from disk, lets the session get a second writer sooner or later if and only if another of its runs is active or can become so, and at once if and only if another one is active |
| Writers.RearmNeedsQuietSession | agent-sidecar/app/agent/graph.py:273-287 | the same two conditions for re-arming a run, loaded or in memory |
| RunExamples.RearmedBesideRunning | agent-sidecar/app/main.py:460-464 | from the empty store: a saved run that was waiting becomes active beside the running one |
| RunExamples.LateApprovalRevives | agent-sidecar/app/agent/graph.py:267-270 | from the empty store: a superseded run whose approval is granted late is active beside the new one |
| RunExamples.TakenOverIdIsLost | agent-sidecar/app/state.py:224-236 | from the empty store: three creations that leave a session with two writers |
| RunExamples.ContinuedBesideRunning | agent-sidecar/app/main.py:340-342 | from the empty store: a superseded run is continued beside the running one |
| RunExamples.ContinuedBesideWatched | agent-sidecar/app/main.py:332-342 | from the empty store: a continuation beside a superseded run that waits for an approval leaves one writer, and the approval makes two |
| RunStore.EveryRunKeeps | agent-sidecar/app/state.py:189-375 | what new runs satisfy and no change breaks holds of every run object in every reachable store |
| RunStore.EveryLogIsNumbered | agent-sidecar/app/state.py:139-141 | in every reachable store the events of each run are numbered by their place in its log |
| RunStore.RunLives | agent-sidecar/app/state.py:189-375 | every run object lives exactly the changes that the operations on the store make for it |
| RunLife.MayWriteShrinks | agent-sidecar/app/state.py:189-201 | only a continuation or a re-armed wait makes a possible writer of a run that was none |
| Cancellation.NeverCancelledTwice | agent-sidecar/app/state.py:189-201 | over every run of the store, `cancel_run` and supersession append at most one "cancelled" for each life of a run, whatever its loops append besides; a run that is not continued or re-armed and has no loop out of reach has one life |
| RunLife.OneStoreCancelPerLife | agent-sidecar/app/state.py:189-201 | along every sequence of changes the store's "cancelled" events are at most one more than the revivals |
| RunLife.StoreCancelsAreLogged | agent-sidecar/app/state.py:200-201 | the store's cancellations are all in the log, among those of the loops |
| Cancellation.CancelLeavesOneEvent | agent-sidecar/app/agent/loop.py:924-926 | a cancel of a run that is not over leaves one more "cancelled" event, then and ever after, if and only if it had no task, watcher or stray loop |
| RunExamples.LiveLoopCancelsAgain | agent-sidecar/app/agent/loop.py:3229-3250 | from the empty store: create, launch, cancel and unwind leave two "cancelled" events |
| RunExamples.StallEndsCancelled | agent-sidecar/app/agent/stall.py:94-101 | from the empty store: a stalled run is failed and then becomes cancelled |
| Cancellation.OverIsSettled | agent-sidecar/app/agent/loop.py:3229-3250 | a run that is over keeps its status and gets no further "cancelled", its log only growing, if and only if nothing drives it any more |
| Cancellation.OverIsOver | agent-sidecar/app/agent/graph.py:225-270 | a run that is over stays so through every later step but a continuation or re-arming, if and only if no stray loop drives it and no watcher of it can get a go-ahead |
| Cancellation.CancelIsFinal | agent-sidecar/app/state.py:354-375 | after a cancel the run is over, and for good if and only if it had no loop out of the cancel's reach and no watcher with an approval in hand |
| SessionStores.SessionStore.CancelOtherRuns | agent-sidecar/app/state.py:203-208 | after the loop every run of the session that the table reaches and that was running or waiting is cancelled, and every other run is as it was |
| SessionStores.SessionStore.CreateRun | agent-sidecar/app/state.py:210-247 | no earlier run of the session that the table reaches is running or waiting any more; the new run is running with an empty log, in the table under its id and the latest of its session |
| SessionStores.SessionStore.GetSessionRun | agent-sidecar/app/state.py:183-187 | the run that was created or loaded last for the session, while the table has it |
| SessionStores.SessionStore.CreateRunResuming | agent-sidecar/app/state.py:287-349 | without a source log no object changes at all; with one, as for a new run, with an empty event log |
| SessionStores.SessionStore.HydrateRunFromDisk | agent-sidecar/app/state.py:249-285 | a run in memory is returned as it is; one loaded from disk is new, idle and supersedes nobody |
| SessionStores.SessionStore.HydrateAndRearm | agent-sidecar/app/main.py:988-1008 | a run is loaded if need be; its saved request is taken up if and only if it is new in memory, or comes from disk, is not waiting and has nothing pending; no other run is looked at |
| SessionStores.SessionStore.AnswerRun | agent-sidecar/app/main.py:568-650 | an answer changes the run under that id alone, and only if it is in the session and has such a request unanswered; otherwise it is refused and nothing changes |
| SessionStores.SessionStore.CancelRun | agent-sidecar/app/state.py:354-375 | only the run under that id and the requests it waits for are touched, and none of them is left pending |
| SessionStores.SessionStore.ContinueRun | agent-sidecar/app/main.py:321-359 | accepts if and only if the run is in memory, of the session and neither running nor waiting, or is not in memory but on disk; then it is running and returned, otherwise nothing changes |
| BrowserHistory.HistoryIsNewestDistinct | src-tauri/src/browser.rs:1285-1308 | after any visits the list is the first 500 distinct (url, profile) keys of the trace read newest first, each from its latest visit |
| BrowserHistory.HistoryIsPrefix | src-tauri/src/browser.rs:1285-1323 | with clears mixed in it is a prefix of that list over the visits not cleared, and all of it while the cap was never exceeded |
| BrowserHistory.EntryIsThere | src-tauri/src/browser.rs:1285-1323 | the latest visit of a key is in the list if and only if at every moment since it was among the first 500 of the ideal one: no clear took it and no 500 newer keys pushed it out |
| BrowserHistory.HistoryWritesGoThrough | src-tauri/src/browser.rs:1307-1322 | the saved history has one record for each entry, so no write of it is refused by the catalog store |
| BrowserHistory.History.Record | src-tauri/src/browser.rs:1285-1308 | the visit is first, with the URL for a missing title; behind it are entries of other (url, profile) pairs only, all of them while there is room, and never more than 500 in all |
| BrowserHistory.History.Clear | src-tauri/src/browser.rs:1310-1323 | exactly the entries of other profiles are left, none when everything is cleared; an empty overwrite is asked for exactly when nothing is left |
| LoopbackTunnels.DisplayAgrees | src-tauri/src/browser.rs:1125-1173 | under every interleaving of navigations and sessions, live tunnels have distinct ports and the display map sends each listed one to its target, although stale entries stay |
| LoopbackTunnels.ShownAsTyped | src-tauri/src/browser.rs:1184-1218 | the rewritten URL is shown as the typed one with its host normalised, if and only if the host is an IPv4 loopback one and the local port is no default that hides a typed port |
| LoopbackTunnels.EveryTunnelShowsItsUrl | src-tauri/src/browser.rs:1125-1218 | in every reachable state each listed tunnel shows the URL it was opened for |
| LoopbackTunnels.ReusedIsShownAsTyped | src-tauri/src/browser.rs:1135-1142 | a navigation that reuses a tunnel shows the typed URL under the condition of `ShownAsTyped` |
| LoopbackTunnels.LoopbackHosts | src-tauri/src/browser.rs:1176-1191 | exactly "localhost" in any case, 127.0.0.1, ::1 and 0.0.0.0 are loopback hosts, also in brackets, and what each is normalised to |
| LoopbackTunnels.BrowserManager.LookUp | src-tauri/src/browser.rs:1125-1152 | other hosts pass through and a missing session is an error; a loopback URL is loaded through a listed tunnel of the session to its own host and port, at 127.0.0.1 and the tunnel's port, and a tunnel is asked for only when none is listed |
| LoopbackTunnels.BrowserManager.BeginNavigation | src-tauri/src/browser.rs:1125-1154 | the first half of a navigation is the tables' step, with the same promise: a listed tunnel to the typed host and port, or a request for one when there is none |
| LoopbackTunnels.BrowserManager.Register | src-tauri/src/browser.rs:1153-1173 | the second half of a navigation is the tables' step: list and display map get the tunnel together, neither if the session has gone, and they agree afterwards |
| LoopbackTunnels.BrowserManager.ShutdownSession | src-tauri/src/browser.rs:1090-1104 | the tables' step: they agree afterwards, the session's ports are free again, and every tunnel of another session lives on and is shown right, although no display entry goes |
| ShellWords.EscapedIsRead | src-tauri/src/shell.rs:5-7 | read from inside single quotes, in any word and before any text, the escaped value adds exactly the value |
| ShellWords.QuoteIsOneWord | src-tauri/src/shell.rs:1-7 | a POSIX word lexer reads the quoted form of any string as one word equal to it |
| ShellWords.LineIsRead | src-tauri/src/shell.rs:5-7 | a line of plain and quoted words, in front of an operator or the end, is read as exactly those words |
| ShellCommands.SudoPassesTheCommand | src-tauri/src/preview_sudo.rs:251-253 | `sudo -n sh -c` gets five words, the last being the inner command unchanged |
| ShellCommands.SudoPassesTheCommandWithPassword | src-tauri/src/preview_sudo.rs:272 | the same with an empty prompt word and the password on standard input |
| ShellCommands.QuotingIsUndoneAtEveryDepth | src-tauri/src/preview_sudo.rs:251-253 | a command handed through any number of such shells arrives unchanged |
| ShellCommands.CompressReadsAsMeant | src-tauri/src/fs_archive.rs:33-40 | tar is given the archive, directory and name as they are, whatever they contain |
| ShellCommands.ExtractReadsAsMeant | src-tauri/src/fs_archive.rs:42-63 | every kind of archive lexes to its intended argument list, the operators and redirections of the unzip fallback included |
| CdArgument.CdArgumentGoesThere | src-tauri/src/shell.rs:9-46 | for every path the shell reads one word, and after tilde expansion it is the wanted directory |
| UnixPaths.NormalizeUnixPath | src-tauri/src/shell.rs:289-306 | the loop over the parts computes the lexical walk of the path from the root, or of a relative path from nowhere |
| UnixPaths.Tracker.ApplyCdTarget | src-tauri/src/shell.rs:211-239 | the tracked directory after one target, branch by branch |
| UnixPaths.TrimmedIs | src-tauri/src/shell.rs:212 | of a target the white space at both ends goes, then the quotes at both ends of that, all of them and nothing else |
| UnixPaths.NormalizedWalks | src-tauri/src/shell.rs:289-306 | normalising an absolute path gives the normal form of where its names lead, with no empty, "." or ".." name left |
| UnixPaths.JoinWalks | src-tauri/src/shell.rs:266-273 | joining and normalising is walking from the base along the segment's names |
| CwdTracking.CdTracks | src-tauri/src/shell.rs:211-287 | from a normal directory the code goes to the normal directory that the path semantics with its two exceptions says |
| CwdTracking.CdIsLexical | src-tauri/src/shell.rs:211-287 | that is lexical pathname resolution, if and only if the target is no bare ".." at home or root and no repeated "~/" that matters |
| CwdTracking.CwdStaysNormal | src-tauri/src/shell.rs:211-306 | over every sequence of targets the tracked directory stays absolute and normal |
| CwdTracking.PathIsShown | src-tauri/src/shell.rs:241-251 | home is shown as "~", a path below it with "~" for the home directory, any other path as it is |
| CwdTracking.ShownPathLeadsBack | src-tauri/src/shell.rs:241-251 | `cd` to the shown form of a normal path returns to it, if and only if nothing is trimmed from its end and it does not begin with "~/~/" |
| RemoteListing.DecimalParses | src-tauri/src/fs_remote.rs:229 | a printed size is read back as the number, or as none when it does not fit into 64 bits |
| RemoteListing.PrintedListingParsesBack | src-tauri/src/fs_remote.rs:212-239 | parsing what is printed in the seven-field format of lines 79-81 gives the entries back in order, names with tabs and newlines unchanged |
| RemoteListing.EntriesPointwise | src-tauri/src/fs_remote.rs:212-239 | when all names are ones a directory can hold, no entry is lost, added or moved |
| RemoteListing.ParsedEntry | src-tauri/src/fs_remote.rs:217-236 | each parsed entry has the name, kind, size, time, permissions, owner and group that were printed, field by field |
| RemoteListing.OnlyHoldableNames | src-tauri/src/fs_remote.rs:222-224 | an entry is listed if and only if its name is not empty, "." or ".."; hidden names are |
| RemoteListing.OnlyDigitsHaveAValue | src-tauri/src/fs_remote.rs:229 | a size is a number if and only if it is digits all through |
| StreamCopy.Reader.ReadStreamChunk | src-tauri/src/preview_sudo.rs:295-325 | fills the buffer with the next bytes of the stream, or stops short only at its end; cancelled only when the flag is set, failed only when the connection broke |
| StreamCopy.ThrottledProgress.Report | src-tauri/src/transfer.rs:115-139 | reports exactly when forced or when an interval has passed since the last report, so the first is never held back; n regular reports take at least n - 1 intervals |
| StreamCopy.StreamToFile | src-tauri/src/preview_sudo.rs:407-443 | a successful copy wrote exactly the stream, however it arrived, and its last report is the total, also when only the remote exit status is bad; any other, a full disk included, wrote a prefix; something is reported before the end, reports never go down, and number at most two more than intervals passed; an undisturbed copy succeeds; one whose flag is set has written no more than a chunk beyond what arrived before, and nothing if it was set at the start |
| StreamCopy.ReportsPerInterval | src-tauri/src/transfer.rs:115-139 | the bound on reports in whole intervals |

## Left out

- CrashSafety.RecordsSurvive: a file-system call that fails while the process goes on is not modelled, only crashes; nor are two threads that save the same catalog at once (temporary names depend on the process id alone), nor directory creation and whether a finished rename has reached the disk.
- CrashSafety.DeleteIsAllOrNothing: assumes the mirror that a finished save leaves; `SaveIsAllOrNothing` has the exact condition.
- Durable.Disk.MigrateLegacyDir: only the two catalogs are copied, the "kubeconfigs" and "bin" folders are not.
- Migration.MigrationSurvivesCrashes: the copies of the "kubeconfigs" and "bin" folders (`copy_tree_if_dest_empty`) are not part of the model, and two old directories are assumed.
- AuditChain.AcceptedLogIsBound: times and event names without "|" are assumed; SHA-256 is a parameter with 64 hexadecimal digits as output, and times are strings, as the code formats them.
- EventStream.StreamIsLossless: a waiter's timeout is a resumption at any time; the response framing around the events is left out.
- Writers.OneWriterPerSession: a live loop may set any status and append any event but "session_continued"; the run's own loop is taken not to make an active run of one that is over, and a cancelled task either to unwind at its next step or to go on as a live one, so that tasks inside of the graph framework are not told apart from it.
- AgentRuns.AgentRun.WakeWatcher: a declined or unusable approval counts as a plain answer, and an approved operations plan as a command; the "tool_result" and approval events on the way are steps of the environment.
- AgentRuns.AgentRun.RearmWait: whether there is a snapshot on disk, and for which kind of request, is a choice of the environment.
- AgentRuns.AgentRun.Stop: the stall watcher that it cancels is not an object here; a stall fails only a run that is running.
- SessionStores.SessionStore.CreateRun: session logs, security and interaction modes, identities, metadata and the audit row written on the way are left out; new run ids are parameters.
- LoopbackTunnels.ShownAsTyped: showing an IPv6 loopback address fails in the code because the bare address is no host; the condition excludes it, and nothing more is said. Ports are not limited to 16 bits.
- LoopbackTunnels.BrowserManager.Register: the tunnels of navigations under way are ghost state, and the list and the display map are updated in one step, the short time between their two locks is not modelled.
- BrowserHistory.HistoryWritesGoThrough: the saved entry is modelled without its time of visit.
- ShellWords.LineIsRead: the lexer gives up on unquoted expansions, patterns and comments and on other users' home directories instead of modelling them; strings are sequences of characters, and NUL is not excluded.
- CdArgument.CdArgumentGoesThere: says which word `cd` is given; a word that begins with "-" is an option to `cd`, and "-" alone the previous directory, whatever the quoting.
- UnixPaths.Tracker.ApplyCdTarget: the Windows branch, command extraction from typed input (`extract_cd_target`, `update_cwd_from_input`) and `resolve_unix_path` are not part of this model; of Unicode white space the code points that the standard library trims are listed.
- RemoteListing.PrintedListingParsesBack: reading a time as milliseconds is a parameter, as it is floating point; the tab-separated fallback listing and the sorting of entries are left out.
- StreamCopy.StreamToFile: a local write fails only when the disk is full; errors of creating or flushing the file, and what the remote command printed on failing, are left out.
- JSON text: serialisation is taken as a round trip; numbers keep their text.
- Reading and clearing the restore notice, copying a single file into the mirror, choosing the root directories.
- Webviews, proxies, SSH, SFTP and terminal processes, and everything of the user interface.
