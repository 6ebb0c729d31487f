# A model of the imap-sieve daemon

imap-sieve watches one IMAP mailbox and applies a Sieve script to each new message. This
project models the part that must not lose mail: the protocol by which the daemon fetches,
processes and records messages across failures, crashes and reconnects, and the pipeline
from Sieve events to IMAP and SMTP commands. It proves what that protocol and that
pipeline guarantee, for every run and every failure, and, where the code does less than
its comments or its design document say, under exactly which condition it does so.

## How the model is built

* `MailStore` is the mail server as a value: mailboxes that map UIDs to messages. Its
  functions are the contract the daemon relies on: UIDs ascend and are never reused
  (section 2.3.1.1 of RFC 3501), a UID command that names no message succeeds and does
  nothing (section 6.4.8), COPY keeps flags (section 6.4.7), UID EXPUNGE removes only a
  listed message marked `\Deleted` (section 2.1 of RFC 4315), MOVE is atomic per message
  (section 3.3 of RFC 6851). `Fetching` is the fetch of `start:*`, which always includes
  the last message (section 6.4.8 of RFC 3501), with CHANGEDSINCE (section 3.1.4.1 of
  RFC 7162), in ascending order.
* `Commands` gives every command three fates: it completes, it fails without effect, or it
  fails after it took effect. Theorems about the pipeline hold for every list of fates.
* `ImapClient`, `ActionExecutor`, `SieveEngine`, `StateStore`, `ScriptLoader`,
  `BackoffDelay` and `Headers` hold the imperative code: classes and loops as in the
  source, each method proved against a function of the old state. `Conservation`,
  `MoveRefinement`, `Sketches`, `Pipeline`, `EndToEnd`, `Outgoing`, `Retry` and `HeaderLaws` prove
  what those functions mean.
* `Protocol` is the whole daemon as a state machine over its awaits. An event is a step of
  the environment (delivery, removal and flag changes by other clients, re-creation of the
  mailbox, shutdown notification, script reload), of the process (crash, launch), or the
  answer to the await the daemon is at. The machine is total, so every list of events is a
  run. `ProtocolSound`, `ProtocolSafety`, `ProtocolDurable`, `ProtocolMarks`,
  `ProtocolProgress`, `ProtocolScripts`, `ProtocolRetry`, `ProtocolBlocked`,
  `ProtocolAccounts`, `ProtocolReconnect`, `ProtocolShutdown`, `ProtocolFindings`,
  `ProtocolPolls` and `Batching` speak about its runs. The Sieve runtime is an arbitrary function of the script, the message's contents
  and the time.
* `Daemon` is the nested loops of supervisor, session and batch over the classes above,
  proved to arrive, on every schedule, where the machine does.

The environment acts at awaits and between messages; the commands for one message are
issued without another client in between. A crash in the middle of a message is a run in
which the commands from there on fail without effect, followed by the crash.

## Where the code and its documents differ

* `start:*` returns the newest message even when it is below `start`. So on first run,
  against the comment at `crates/imap-sieve-core/src/session.rs:169-171`, the newest old
  message is processed exactly when it matches the mark sent: always without CONDSTORE,
  never with CONDSTORE and a reported mark (`ProtocolFindings.FirstRunTakesNewestIff`).
  Under the same condition a quiet keepalive poll processes the newest message again
  (`ProtocolFindings.QuietPollRepeatsNewestIff`): k polls send its mails and file its copies
  k more times (`ProtocolPolls.QuietPollsResend`, `ProtocolPolls.QuietPollsRefile`). No
  other message is executed OK twice within a process (`ProtocolProgress.TwiceOnlyIfNewest`).
* The SELECT's HIGHESTMODSEQ is adopted before the drain, so with CONDSTORE the drain
  leaves out all mail that arrived while the daemon was away, and the next arrival takes
  the counter past it (`ProtocolFindings.DrainIsBlind`,
  `ProtocolFindings.DrainIsCompleteIff`, `ProtocolFindings.CondstoreSkipsWaitingMail`).
  What arrives after the SELECT is never left out (`ProtocolMarks.ArrivalsAreNeverLeftOut`).
* The comment at `crates/imap-sieve-core/src/session.rs:169` says that waiting mail is
  drained. The drain is one batch: what is beyond the batch size waits for the next wake-up
  or keepalive poll (`ProtocolFindings.DrainIsCompleteIff`).
* `docs/design.md:308` says the daemon fails when the server lacks IDLE; the supervisor
  reconnects until it is stopped (`ProtocolFindings.MissingIdleReconnects`).
* `docs/design.md:366` says shutdown finishes the current message; it finishes the batch,
  which is the same exactly when the current message is its last
  (`ProtocolShutdown.ShutdownFinishesBatch`; `ProtocolShutdown.ShutdownIsBounded` gives the
  bound).
* `docs/design.md:361` says a script error makes the daemon log and skip the message; it
  stops the batch instead. A message whose evaluation always fails keeps every later one
  from being processed as long as no fetch is blind to it (`ProtocolBlocked.FailingMessageBlocks`):
  in every run without CONDSTORE (`ProtocolBlocked.BlocksWithoutCondstore`), and with it while no
  SELECT reports a mark (`ProtocolBlocked.BlocksWithoutReport`). A SELECT that reports one ends
  it, and the message is skipped (`ProtocolBlocked.ReportEndsBlocking`).
* Of several `fileinto` without `:copy` or `keep`, on a server where filing removes the
  message, only the first takes effect (`EndToEnd.EveryFileIntoHonouredIff`,
  `EndToEnd.SecondFileIntoIsLost`).
* `crates/imap-sieve-core/src/processor.rs:31-32` promises that a message whose processing
  failed is processed again on the next batch or after a restart. Two things can break that.
  The failed attempt itself may take the message away: every failing attempt leaves it in the
  mailbox exactly when its events neither file it away nor discard it (`Retry.FailsSafelyIff`,
  `ProtocolRetry.EveryFailureIsRetriedIff`, with an example in `ProtocolRetry.FiledThenFailed`).
  And a later SELECT may hide it: at any later fetch of any run, a message still there above
  the counter is returned exactly when the session has no CONDSTORE, no mark is known, or the
  message has changed since the mark adopted last (`ProtocolMarks.FetchedAgainIff`). So within
  the session it always comes back (`ProtocolRetry.FailedComesBackInSession`), and after a
  reconnect to a server with CONDSTORE that reports its mark it does not until somebody
  changes it (`ProtocolMarks.OldMailIsHiddenUntilChanged`, `ProtocolRetry.ReconnectHidesFailed`).
* Flags given to single `fileinto` commands are all applied before any filing. Every filed
  copy carries the final flags exactly when a Keep occurred, or filing removes the message,
  or there is at most one FileInto, or `\Deleted` is among the flags: on a server with
  neither MOVE nor UIDPLUS later copies are filed as deleted
  (`EndToEnd.CopiesCarryFinalFlagsIff`).
* The comment at `crates/imap-sieve-core/src/session.rs:58` gives the jitter factor for
  jitter 0.5 as 0.75 to 1.5; it is 0.75 to 1.25 (`BackoffDelay.DelayBounds`).

## Model

| member | source | states |
|---|---|---|
| ProtocolSound.AlwaysSound | crates/imap-sieve-core/src/session.rs:128-172 | every run keeps the invariant: memory is level with the file or ahead; the cached UIDVALIDITY is never from the future, and in its epoch the counter is below UIDNEXT; in a session memory, SELECT and mailbox agree on UIDVALIDITY; a batch in progress is a prefix of its fetch, and the counter is where the batch has come to |
| ProtocolDurable.FileHoldsMemory | crates/imap-sieve-core/src/session.rs:134-167 | in every run, while the daemon fetches, processes or idles the file holds exactly the state in memory; while the seed is being written it holds all but the counter |
| ProtocolDurable.FileIsLastAcknowledged | crates/imap-sieve-core/src/state.rs:48-67 | in every run the file is what was in memory at the last acknowledged write; a failed write leaves it alone |
| ProtocolDurable.AnchorStays | crates/imap-sieve-core/src/session.rs:155-167 | once a process has waited for a fetch, no crash, restart or reconnect moves the anchor: every later launch loads the file's counter, which is at least the one then |
| ProtocolDurable.MissingFileMeansNoCounter | crates/imap-sieve-core/src/state.rs:31-42 | a process that finds no state file accepts any UIDVALIDITY, and its first counter, in memory and in the file, is UIDNEXT - 1 |
| ProtocolMarks.SkippedOnlyByMark | crates/imap-sieve-core/src/processor.rs:35-108 | in every run, in memory and in the file: a UID above the anchor that the counter has passed was executed OK, or was passed on the strength of a fetch of the run at which it was absent or, with CONDSTORE, unchanged since the mark adopted at the last SELECT that reported one, or loaded at the last launch if none has |
| ProtocolMarks.MemoryHoldsMark | crates/imap-sieve-core/src/session.rs:144-152 | after every run the mark in memory is the mailbox's HIGHESTMODSEQ at the last accepted SELECT that reported it, or the file's at the last launch |
| ProtocolMarks.FetchedAgainIff | crates/imap-sieve-core/src/processor.rs:30-53 | at every fetch of every run, after failures, reconnects and restarts, a message in the mailbox above the counter is returned exactly when the session has no CONDSTORE, no mark is known, or it has changed since the mark adopted at the last SELECT that reported one, or loaded at the last launch |
| ProtocolMarks.OldMailIsHiddenUntilChanged | crates/imap-sieve-core/src/session.rs:144-152 | a message that was there when a SELECT with CONDSTORE reported its mark is returned by a later fetch of that session exactly when it has changed since |
| ProtocolMarks.ArrivalsAreNeverLeftOut | crates/imap-sieve-core/src/processor.rs:45-53 | a message that arrives after the session's SELECT reported its mark is returned by every later fetch of that session, until the counter passes it |
| ProtocolSafety.AtLeastOnce | crates/imap-sieve-core/src/processor.rs:27-34 | without CONDSTORE no message is skipped: every UID the counter has passed was executed OK or was absent at the fetch that passed it, across crashes, failed writes, reconnects and re-creations |
| ProtocolAccounts.HandledWasExecuted | crates/imap-sieve-core/src/processor.rs:83-101 | what the no-skip theorems call executed OK is a message that some event of the run executed, with the answer Ok |
| ProtocolSafety.GapIsEmpty | crates/imap-sieve-core/src/processor.rs:50-60 | between the counter and the next message of a batch there is nothing the fetch could have returned, truncation included |
| ProtocolProgress.NeverBackwards | crates/imap-sieve-core/src/processor.rs:98-101 | in any run the durable counter never decreases and a durable UIDVALIDITY never changes; within one process the same holds of memory; memory is never behind the file |
| ProtocolProgress.StartNeverOverflows | crates/imap-sieve-core/src/processor.rs:36-44 | whenever a batch may start the counter is initialised and, with one added, at most UIDNEXT, so the 32-bit addition cannot overflow |
| ProtocolProgress.CounterIgnoresOrder | crates/imap-sieve-core/src/processor.rs:99-101 | no step lowers the counter in any state whatsoever, so the order of a response does not matter for it |
| ProtocolProgress.TwiceOnlyIfNewest | crates/imap-sieve-core/src/imap_client.rs:460-466 | within one process a UID is executed OK again only if it was the mailbox's highest and the fetch had nothing at or above its start |
| ProtocolProgress.MutatesOnlyInEpoch | crates/imap-sieve-core/src/session.rs:134-153 | in every run the daemon changes the store or sends mail only in a session whose SELECT reported the cached UIDVALIDITY, which is still the mailbox's |
| ProtocolProgress.NothingAfterMismatch | crates/imap-sieve-core/src/session.rs:136-143 | after a SELECT with another UIDVALIDITY, in every continuation without a new process, the daemon has ended, state, file and mail are as they were, and the mail store is what the environment alone makes of it |
| ProtocolProgress.EpochEvolves | crates/imap-sieve-core/src/processor.rs:60-108 | in every run, while UIDVALIDITY stands, a UID keeps its content, none below UIDNEXT appears, and UIDNEXT does not fall |
| ProtocolScripts.OneScriptPerBatch | crates/imap-sieve-core/src/processor.rs:57-61 | however reloads fall, all results of a batch are those of evaluating messages of its fetch with one script, the one in the handle at the fetch, which some earlier event of the run had compiled |
| ProtocolScripts.ScriptHasCompiled | crates/imap-sieve-core/src/script_loader.rs:36-56 | in every run of a process the handle holds the compilation of a text that some event of the run read and compiled |
| ProtocolScripts.HandleHoldsLastCompiled | crates/imap-sieve-core/src/script_loader.rs:50-56 | in every run the handle holds what the last successful launch or reload compiled |
| ProtocolProgress.FailedReloadsDoNotShow | crates/imap-sieve-core/src/script_loader.rs:50-56 | every run is the same run without the reloads that could not read or compile |
| ProtocolProgress.AttemptCountsDelays | crates/imap-sieve-core/src/session.rs:403-463 | in every run the backoff exponent equals the number of times the daemon went to sleep since the last successful connect or launch, counted from the run, up to the 32-bit limit |
| ProtocolRetry.EveryFailureIsRetriedIff | crates/imap-sieve-core/src/processor.rs:27-34 | every failing attempt at a new message with a feasible list, whatever command fails and how, leaves it to the session's next fetch exactly when its events keep it: no Discard or Reject on a server with UIDPLUS, no filing without Keep on one where filing removes |
| ProtocolRetry.FailedComesBackInSession | crates/imap-sieve-core/src/processor.rs:30-33 | whatever happens within the session, a failed message is in every fetch while it is there and above the counter |
| ProtocolRetry.ReconnectHidesFailed | crates/imap-sieve-core/src/session.rs:144-172 | after a failure that left the message in place, a reconnect to a server with CONDSTORE that reports its mark leaves the daemon idle with the message above the counter and not in its next fetch |
| ProtocolRetry.FailedIsFetchedIff | crates/imap-sieve-core/src/processor.rs:60-96 | a new message that failed is in the session's next fetch exactly when it is still in the mailbox, with CONDSTORE too |
| ProtocolRetry.FailedComesFirst | crates/imap-sieve-core/src/processor.rs:30-33 | without CONDSTORE a failed message that is in the next fetch is the first of the next batch |
| Retry.FailsSafelyIff | crates/imap-sieve-core/src/action_executor.rs:17-128 | every failing attempt at a feasible list leaves the message in the source exactly when the list neither moves it, on a server where filing removes, nor discards it, on a server with UIDPLUS |
| ProtocolBlocked.FailingMessageBlocks | crates/imap-sieve-core/src/processor.rs:64-74 | while a message stays in the mailbox, its evaluation fails and no fetch is blind to it, through crashes, restarts and new sessions, the counter stays below it in memory and in the file, and no message at or above it is executed OK |
| ProtocolBlocked.BlocksWithoutCondstore | crates/imap-sieve-core/src/processor.rs:45-53 | in every such run without CONDSTORE no fetch is blind to it |
| ProtocolBlocked.BlocksWithoutReport | crates/imap-sieve-core/src/session.rs:144-152 | with CONDSTORE too, in one session and across reconnects and restarts, no fetch is blind to it while no SELECT reports a mark |
| ProtocolBlocked.ReportEndsBlocking | crates/imap-sieve-core/src/session.rs:144-172 | a SELECT with CONDSTORE that reports its mark makes the drain blind to it, and one kept delivery takes the counter past it |
| ProtocolAccounts.MailAccount | crates/imap-sieve-core/src/processor.rs:60-108 | over every run each mail is sent at least as often as the events of the successful attempts ask for it and at most as often as those of all attempts do |
| ProtocolAccounts.ArrivalAccount | crates/imap-sieve-core/src/processor.rs:60-108 | over every run, with other clients at work, the arrivals in a mailbox other than the source are at least the deliveries plus what successful attempts file there and at most the deliveries plus what all attempts ask to file there |
| ProtocolRetry.FiledThenFailed | crates/imap-sieve-core/src/action_executor.rs:64-86 | a filing followed by a forward without SMTP answers with the error when the message is already gone from the source |
| ProtocolShutdown.OnlyTwoExits | crates/imap-sieve-core/src/session.rs:403-464 | the supervisor returns Ok only on a pending shutdown notification, and Err only for a UIDVALIDITY that differs from the cached one |
| ProtocolShutdown.NotificationIsKept | crates/imap-sieve-core/src/session.rs:182-187 | a pending notification is given up only by the exit it asks for, or with the process |
| ProtocolShutdown.NotificationIsNeverLost | crates/imap-sieve-core/src/session.rs:405-426 | a notification of a live process stays pending in every run until the process has ended, and is taken wherever the daemon waits to connect, sleeps or idles |
| ProtocolShutdown.AtMostOneMoreBatch | crates/imap-sieve-core/src/session.rs:174-207 | in every run at most one batch fetches while a notification is pending |
| ProtocolShutdown.ShutdownIsBounded | crates/imap-sieve-core/src/session.rs:174-207 | with a notification pending, whatever the environment does, the daemon takes at most two answers per message of a batch and eight more before it has exited |
| ProtocolShutdown.ShutdownFinishesBatch | crates/imap-sieve-core/src/session.rs:174-207 | a daemon notified during a message exits, unless something fails, only after processing all the rest of the batch in order; it stops after the current message exactly when that is the last |
| ProtocolShutdown.AnswerComesCloser | crates/imap-sieve-core/src/session.rs:403-464 | every answer taken with a notification pending strictly decreases the distance to the exit |
| ProtocolFindings.DrainIsBlind | crates/imap-sieve-core/src/session.rs:144-172 | with CONDSTORE and a reported mark the drain at session start fetches nothing and goes idle, whatever is waiting |
| ProtocolFindings.DrainIsCompleteIff | crates/imap-sieve-core/src/session.rs:144-172 | the batch that starts a session holds all waiting mail exactly when no mark is sent or all of it is newer than the mark, and there are at most batch_size messages of it; with CONDSTORE and a reported mark, exactly when nothing waits |
| ProtocolFindings.CondstoreSkipsWaitingMail | crates/imap-sieve-core/src/session.rs:144-172 | after such a drain one arrival takes the counter past a waiting message that is still in the mailbox and was never handled |
| ProtocolFindings.FirstRunTakesNewestIff | crates/imap-sieve-core/src/session.rs:155-172 | for all capabilities and replies: on first run the counter is UIDNEXT - 1, and the first batch is not empty exactly when the newest message already there matches the mark sent, and then it is that message; if UIDNEXT is not told the counter is 0 and the batch is not empty exactly when some message matches |
| ProtocolFindings.QuietPollRepeatsNewestIff | crates/imap-sieve-core/src/session.rs:193-200 | with nothing new a keepalive poll fetches a message exactly when the newest one matches the session's mark, and then that one again |
| ProtocolPolls.QuietPollsResend | crates/imap-sieve-core/src/session.rs:193-200 | k keepalive polls of a quiet mailbox without CONDSTORE, all answering Ok, send every mail of its newest message k more times, in order |
| ProtocolPolls.QuietPollsRefile | crates/imap-sieve-core/src/session.rs:193-200 | ... and file every copy of it k more times |
| ProtocolFindings.MissingIdleReconnects | crates/imap-sieve-core/src/session.rs:129-132 | in every run in which no server offers IDLE the process is connecting, asking or sleeping, unless it was killed or told to shut down: there is no error exit |
| ProtocolReconnect.FailureEndsSession | crates/imap-sieve-core/src/session.rs:455-462 | after any failed answer, an error in IDLE included, in every continuation without a new connection there is no fetch, execution or mail, and only the environment changes the mailboxes |
| ProtocolReconnect.DelayBeforeReconnect | crates/imap-sieve-core/src/session.rs:403-463 | in every run each attempt to connect, the first of a process apart, comes after a delay that was waited out |
| Batching.DrainIsOneBatch | crates/imap-sieve-core/src/processor.rs:50-108 | without faults, arrivals or filings into the source, and without CONDSTORE, the pending messages are drained by Batches(n, size) batches of any positive size; store, mail sent, state and the results in order are those of handling them all in one go, and nothing is pending then |
| Batching.BatchSizeDoesNotShow | crates/imap-sieve-core/src/processor.rs:54-56 | two batch sizes lead to the same store, state and results |
| Batching.BatchesIsCeiling | crates/config/src/lib.rs:203-205 | the number of batches is the number of messages over the batch size, rounded up |
| Batching.RestIsPending | crates/imap-sieve-core/src/processor.rs:50-60 | after the first n pending messages are handled, exactly the others are pending, unchanged |
| Daemon.Daemon.Supervise | crates/imap-sieve-core/src/session.rs:399-465 | the nested loops keep in step with the state machine on every schedule: when the schedule runs out and when they return, store, mail, memory and file are the machine's; a return is the machine's exit, Ok or UidValidityChanged |
| Daemon.Daemon.RunSession | crates/imap-sieve-core/src/session.rs:128-208 | one session, from CAPABILITY to its end, keeps in step, and ends in shutdown, a UIDVALIDITY change, or an error that is backed off from |
| Daemon.Daemon.SelectMailbox | crates/imap-sieve-core/src/session.rs:134-153 | SELECT, the UIDVALIDITY check and the adoption of UIDVALIDITY and HIGHESTMODSEQ keep in step |
| Daemon.Daemon.SeedCounter | crates/imap-sieve-core/src/session.rs:155-167 | persisting the adopted state and seeding the counter on first run keep in step, a failed write ends the session |
| Daemon.Daemon.IdleLoop | crates/imap-sieve-core/src/session.rs:172-207 | the drain and the idle loop keep in step, the notification being polled first |
| Daemon.Daemon.RunBatch | crates/imap-sieve-core/src/processor.rs:35-111 | one batch, evaluated with the script read from the handle after the fetch, keeps in step, and what it returns is what the machine's history gained: one result per message processed, the last one being the failure that stopped it |
| Daemon.Daemon.ProcessHead | crates/imap-sieve-core/src/processor.rs:60-101 | evaluating and executing one message does what the machine's step does, with the status and the counter to match |
| Daemon.Daemon.SleepBackoff | crates/imap-sieve-core/src/session.rs:455-462 | the delay before a reconnect ends in a new connect or in shutdown |
| StateStore.Store.Update | crates/imap-sieve-core/src/state.rs:48-55 | memory holds the new state whatever happens; Ok exactly when all sub-steps of persisting went through; the disk is left as that many sub-steps leave it |
| StateStore.Store.Persist | crates/imap-sieve-core/src/state.rs:57-67 | a write that fails on the way leaves the old file in place |
| StateStore.ReopenYieldsLastRenamed | crates/imap-sieve-core/src/state.rs:31-67 | with failures and crashes between any sub-steps, reopening yields exactly the state in memory at the last rename, or the one first loaded |
| StateStore.MemoryNeverBehind | crates/imap-sieve-core/src/state.rs:48-67 | updates that never lower the counter keep memory level with the file or ahead, a failed write included |
| ScriptLoader.Loader.Reload | crates/imap-sieve-core/src/script_loader.rs:50-56 | the handle takes the new script exactly when the text was read and compiled, and keeps the old one otherwise |
| Conservation.MailIsConserved | crates/imap-sieve-core/src/action_executor.rs:24-116 | at every point before the deferred deletion, whichever commands failed and whether or not they took effect, the message is in the source or a new copy is in a target |
| Conservation.DeletionComesLast | crates/imap-sieve-core/src/action_executor.rs:118-125 | an execution that does not discard conserves the message; the deletion is reached only when every command before it, the rejection mail included and CREATE apart, was answered OK |
| Conservation.PassMeansAllOk | crates/imap-sieve-core/src/action_executor.rs:49-116 | an Ok answer means every command issued was answered OK, CREATE apart |
| Commands.OnlyTheLastFails | crates/imap-sieve-core/src/action_executor.rs:24-116 | of the commands issued only the last can have failed, CREATE apart |
| ActionExecutor.Executor.Execute | crates/imap-sieve-core/src/action_executor.rs:17-128 | the two loops and the deletion issue, for every list, world and failure, exactly the commands of the list's program, stopping at the first failure |
| ActionExecutor.Executor.FlagPass | crates/imap-sieve-core/src/action_executor.rs:24-47 | the first loop issues the flag commands in order |
| ActionExecutor.Executor.DispositionPass | crates/imap-sieve-core/src/action_executor.rs:49-116 | the second loop issues the dispositions in order and marks a discard exactly when the list has a Discard or Reject |
| ImapClient.MoveWithFallback | crates/imap-sieve-core/src/imap_client.rs:71-90 | MOVE, or COPY, STORE and (with UIDPLUS) EXPUNGE, stopping at the first failure |
| MoveRefinement.FallbackRefinesMove | crates/imap-sieve-core/src/imap_client.rs:71-90 | with UIDPLUS and no faults the fallback succeeds exactly when MOVE does and leaves the same mail in every mailbox |
| MoveRefinement.FallbackStopsBetween | crates/imap-sieve-core/src/imap_client.rs:81-87 | wherever a failure stops it, the store is in one of four states, and Ok means the last of them |
| MoveRefinement.BetweenTheEnds | crates/imap-sieve-core/src/imap_client.rs:81-87 | up to the last state the message is in the source, from the first on its copy, with the original flags, is the newest message of the target |
| MoveRefinement.RunTouchesOnlyTheSubject | crates/imap-sieve-core/src/action_executor.rs:17-128 | whatever is executed and whatever fails, every other message of every mailbox stays as it was |
| Sketches.RunAgrees | crates/imap-sieve-core/src/action_executor.rs:17-128 | a program that answers Ok leaves source, targets and all other messages as an interpreter of presence, flags and filings says |
| Pipeline.TwoPassesAreAPartition | crates/imap-sieve-core/src/action_executor.rs:24-116 | for every list, world and failure, executing the list is executing its flag actions and then its other actions, each in order |
| Pipeline.ProgramSketch | crates/imap-sieve-core/src/action_executor.rs:24-125 | the filings of a list start from the left fold of all its flag operations, and the message stays exactly when the list leaves it in place |
| SieveEngine.Evaluate | crates/imap-sieve-core/src/sieve_engine.rs:84-219 | the event loop, implicit keep and copy detection yield the normalised translation of the whole event list, or the first error |
| SieveEngine.KeepCopies | crates/imap-sieve-core/src/sieve_engine.rs:209-216 | the in-place pass and the retain pass turn every filing into a copy and drop the Keeps, in order |
| EndToEnd.KeepInListIff | crates/imap-sieve-core/src/sieve_engine.rs:178-216 | the list says Keep exactly when nothing is filed, and a Keep occurred or no event decided about the message |
| EndToEnd.CallsArePassedOn | crates/imap-sieve-core/src/sieve_engine.rs:165-173 | every function event is passed on with its arguments, once and in order |
| EndToEnd.NormalisedFacts | crates/imap-sieve-core/src/sieve_engine.rs:178-218 | the list of every event sequence: same targets in order, a move exactly when something is filed and no Keep occurred, a discard exactly on Discard or Reject, same final flags |
| EndToEnd.EvaluateThenExecute | crates/imap-sieve-core/src/action_executor.rs:17-128 | for every event list and capability set, after an Ok execution the message is in the source exactly when it was not discarded on a server with UIDPLUS, and Keep occurred, nothing was filed, or filing cannot remove it; each mailbox gains exactly as many copies as it is a recipient |
| EndToEnd.CopiesCarryFinalFlagsIff | crates/imap-sieve-core/src/action_executor.rs:24-116 | after an Ok execution every filed copy carries the final flags exactly when Keep occurred, filing removes, at most one FileInto occurred, or \Deleted is among them |
| EndToEnd.StayingMessageIsMarked | crates/imap-sieve-core/src/action_executor.rs:118-125 | after an Ok execution a message that stays carries the final flags, and \Deleted exactly in addition when it was discarded or filed without Keep |
| EndToEnd.EveryFileIntoHonouredIff | crates/imap-sieve-core/src/sieve_engine.rs:193-216 | after an Ok execution every mailbox has gained as many copies as FileInto events name it, exactly when Keep occurred, at most one FileInto occurred, or filing does not remove the message |
| EndToEnd.SecondFileIntoIsLost | crates/imap-sieve-core/src/sieve_engine.rs:193-216 | two plain FileIntos executed on a store that has both mailboxes answer Ok, file one copy into the first, none into the second, and take the message away |
| Outgoing.EvaluateThenSend | crates/imap-sieve-core/src/action_executor.rs:73-113 | for every event list and failure, the mails sent are those of the redirect and reject events, each once, in order, as far as the execution came; all of them on Ok; none without SMTP. A redirect is sent in the name of the message's sender, or of the null path when it has none |
| Retry.RetriedMails | crates/imap-sieve-core/src/action_executor.rs:73-113 | over k failed attempts and one Ok, each redirected or rejection mail is sent at least as often as the events say and at most k+1 times that, and nothing else |
| Outgoing.ExecutionSucceedsIff | crates/imap-sieve-core/src/action_executor.rs:17-128 | on a fault-free connection to a server with room an execution answers Ok exactly when every target is there or is created on the way, every redirect has SMTP and octets, and every rejection SMTP and a sender |
| Outgoing.EvaluateThenSucceedsIff | crates/imap-sieve-core/src/sieve_engine.rs:107-218 | on a fault-free connection to a server with room, evaluating and executing answers Ok exactly when each FileInto event's folder is there, or it or an earlier one for the folder asks to create it, each redirect has SMTP, and each rejection SMTP and a sender |
| Outgoing.MoveSucceedsIff | crates/imap-sieve-core/src/imap_client.rs:71-90 | in that situation a filing succeeds exactly when the target is there, whatever the server's extensions |
| Retry.AttemptsGainAtMost | crates/imap-sieve-core/src/processor.rs:83-96 | any number of attempts, however they fail, files at most attempts times the naming FileIntos into a mailbox |
| Retry.RetryBounds | crates/imap-sieve-core/src/processor.rs:83-101 | for lists whose filings are all copies, or that have one filing, with or without a discard and on every server: k failed attempts and one Ok leave between m and m(k+1) copies in a mailbox named m times, and the message in the source exactly when the list leaves it there |
| Retry.NativeMoveIsExactlyOnce | crates/imap-sieve-core/src/imap_client.rs:78-80 | with MOVE, a list that files into one mailbox leaves exactly one copy there once an attempt answers Ok, and none in the source |
| Retry.MoveBalances | crates/imap-sieve-core/src/imap_client.rs:78-80 | at every failure point, what left the source has arrived at the target, once |
| Fetching.FetchLists | crates/imap-sieve-core/src/imap_client.rs:460-538 | a fetch is ascending, within the range, as stored, and complete |
| Fetching.FetchMissesIff | crates/imap-sieve-core/src/imap_client.rs:466-477 | a message at or above start is left out exactly when CHANGEDSINCE is sent and it has not changed since |
| Fetching.FetchReachesBackIff | crates/imap-sieve-core/src/imap_client.rs:466 | a message below start is returned exactly when it is the newest of the mailbox (and matches) |
| Headers.ParseHeaders | crates/imap-sieve-core/src/types.rs:111-154 | the two passes compute the one-pass specification: each lowercased name with its trimmed values, in order, joined by ", " |
| Headers.Unfold | crates/imap-sieve-core/src/types.rs:115-136 | the first pass writes the logical lines before the first empty line, each after a line feed |
| Headers.ExtractFields | crates/imap-sieve-core/src/types.rs:138-153 | the second pass groups the fields of the lines it is given |
| Headers.GroupedConcat | crates/imap-sieve-core/src/types.rs:144-151 | grouping two runs of fields is the key-wise merge of their groups |
| HeaderLaws.ParseComposes | crates/imap-sieve-core/src/types.rs:111-154 | complete lines without a blank line, followed by text that does not start with a blank, parse to the key-wise merge of the two |
| HeaderLaws.ParseStopsAtBlankLine | crates/imap-sieve-core/src/types.rs:121-124 | text after the first empty line never matters |
| HeaderLaws.OneField | crates/imap-sieve-core/src/types.rs:138-153 | a line name:value parses to one entry: its key is the name without the whitespace around it and with A to Z in small letters, its value the value without the whitespace around it |
| HeaderLaws.NoColonNoField | crates/imap-sieve-core/src/types.rs:138-153 | a line without a colon adds nothing |
| HeaderLaws.OrphanContinuation | crates/imap-sieve-core/src/types.rs:125-130 | continuation lines before the first field are ignored |
| HeaderLaws.FoldingOnceIsUndone | crates/imap-sieve-core/src/types.rs:115-136 | replacing a space between visible characters by a line break and any run of blanks changes nothing (section 2.2.3 of RFC 5322) |
| HeaderLaws.FoldingIsUndone | crates/imap-sieve-core/src/types.rs:115-136 | the same for any number of folds |
| BackoffDelay.Backoff.NextDelay | crates/imap-sieve-core/src/session.rs:32-40 | the delay is the jittered base delay of the present attempt, and the attempt moves on, saturating at 32 bits |
| BackoffDelay.ProductNeverSaturates | crates/imap-sieve-core/src/session.rs:33-34 | the 128-bit product stays below its limit for delays in 64-bit seconds |
| BackoffDelay.BaseIsIdealIff | crates/imap-sieve-core/src/session.rs:33-35 | the base delay is min(initial * 2^n, max) for every n exactly when initial is 0 or max is at most initial * (2^32 - 1) |
| BackoffDelay.BaseIsMonotone | crates/imap-sieve-core/src/session.rs:33-38 | base delays never shrink from attempt to attempt and are at most max |
| BackoffDelay.DelayBounds | crates/imap-sieve-core/src/session.rs:36-39 | every delay is at most max and lies within half the jitter of its base, rounded down |
| BackoffDelay.DelayTracksIdeal | crates/imap-sieve-core/src/session.rs:32-40 | for a max within reach, every delay is at least the floor of the ideal delay times (1 - jitter/2), and at most max |
| BackoffDelay.DelayAtNoDraw | crates/imap-sieve-core/src/session.rs:36-39 | the smallest draw gives the base delay times (1 - jitter/2), rounded down |
| BackoffDelay.DelayAtFullDraw | crates/imap-sieve-core/src/session.rs:36-39 | the largest draw gives the base delay times (1 + jitter/2), at most max, rounded down |
| BackoffDelay.DelayFollowsDraw | crates/imap-sieve-core/src/session.rs:36-39 | below max, two draws give delays that differ by the base delay times their difference, to within a millisecond |

## Left out

* TLS, TCP, login and the wire format of IMAP: only the meaning of the commands is modelled.
* The sieve-rs compiler and runtime: what a script does with a message's contents at a given time is any finite list of events, ended normally or by an error.
* SMTP delivery and the text of a rejection (date, message identifier, line breaks in the reason): a send is an entry in a log, and may fail.
* Configuration files, command line, logging and signal handlers: a positive batch size and a jitter between 0 and 1 are what the configuration validates.
* The JSON form of the state and a corrupt or unreadable state file; an operator who deletes the state file while the daemon is down.
* Decoding of raw octets: header text is a sequence of characters.
* Floating-point rounding in `Backoff`: the jitter factor is a real number.
* The file watcher's thread and event filter: reloads happen at any point.
* Envelope extraction, `MessageContext.header`, the size field, and case-insensitive flag names: a fetched message carries its octets, its sender and its flags.
* A server that does not report UIDVALIDITY (the client then reads 0), or that lists messages out of order: the counter's monotony needs no order, the no-skip theorems do.
* Other clients that act between two commands for the same message: they act between messages and at awaits.
* MessageProcessor, SessionManager and Supervisor are one class `Daemon` here, because the source's borrows between them have no counterpart.
- Daemon.Daemon.Supervise: follows the loops along a finite schedule and is `Suspended` when that runs out; that the loops go on for ever otherwise is not stated.
- ProtocolSafety.AtLeastOnce: says nothing below the anchor, which is the counter as loaded or seeded; a crash before the first seed is durable seeds again.
- Batching.DrainIsOneBatch: the daemon is woken by EXISTS between two batches, as the source drains one batch per wake-up.
- Retry.RetryBounds: gives no lower bound for a list with several filings without `:copy`, because there only the first takes effect where filing removes (`EndToEnd.EveryFileIntoHonouredIff`).
- ProtocolRetry.EveryFailureIsRetriedIff: asks for a feasible list and a server with room, because a list that can never reach the command that removes the message leaves it in place whatever its events say.
