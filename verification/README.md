# Verification of the agent-teams core

This project models the parts of the repository where the claims are hardest to see from the code, and proves them in
Dafny.  Most of it is about concurrency: each protocol is a state machine whose steps are the atomic actions of the
program (one lock held, one atomic load or store, one file-system call), `Runs(s, steps)` is any interleaving of them,
and the main lemmas speak of the state `After` every run.  Beside the machines stand classes with the program's own
imperative code.  Each method requires and ensures the machine's invariants and takes the state through the step it is
named after; `Interleave` executes any schedule of such steps on the object, and `Send` and `DrainPendingFile` are
`send_input` and `drainPendingFile` from call to return with the rest of the program at work between any two of their
actions.  The sequential modules tie a loop or an in-place edit to a specification function and prove what the function
means.

`dafny verify dfyconfig.toml` checks everything.

| module | what it covers |
|---|---|
| `TeamSessions` | sessions and deferred shutdown in `TeamOrchestrator`: the sessions map and the pending map have separate locks, and a send holds neither while it waits |
| `ClaudeSession` | the idle gate between `send_input` and the background reader, and the bounded output channel |
| `LeadPending` | the queue file that hook processes drain by renaming it while a service appends to it |
| `RuntimeRegistry` | the managed-session table and the registry of handles kept beside it |
| `Inbox` | the inbox file that many processes read, change and write back under a file lock |
| `ManagedBlock` | rewriting the managed block of a Codex configuration |
| `WordSearch` | whole-word keyword search |
| `GlobalInstall` | install and uninstall edits on two JSON files |
| `CodexStderr`, `Redaction`, `LineRedaction`, `SwallowedSecret` | the ring of recent stderr lines, the loops that mask secrets, a whole line through all of them, and one such line |
| `Memory` | conversation memory: eviction and the budgeted context |
| `CheckpointDiff` | the diff of two checkpoints |
| `Consensus` | majority and unanimity |
| `Search`, `Sequences`, `Text`, `Wrappers` | substring search, ends of sequences, UTF-8 lengths, Option and Result |

## Assumptions

- A mutex or file lock is exclusive, and a file lock is released when its holder dies.  Renaming a file and replacing
  an inbox file are atomic.  An entry is appended by one write: the program writes the line break after it by a second
  one, but hooks skip blank lines and need no break after the last entry, and the append lock keeps other entries out
  of between, so the break carries nothing.
- Atomic flags are sequentially consistent.  A timeout may strike at any moment, so it is a step that is always
  enabled; the 60 seconds after which a pending mark is swept are counted on an explicit clock.
- The outcome of a call into a backend, a child process or a JSON parser is a parameter or a free choice of the run.
  Fresh uuids and timestamps are parameters.
- A JSON value is a datatype; objects are maps without key order, as in the JSON library the program is built with.
- Strings are sequences of characters.  Where the program measures bytes (the context budget, file names) `Text.ByteLen`
  does too; where it only compares positions, characters and bytes agree because patterns are whole characters.

## Where the code does not do what it says

For each of these there is a lemma with a run or input that shows it, and one with the exact condition under which the
code does meet the claim, for all runs or inputs.

- **Deferred shutdown.**  A shutdown that finds no session leaves a mark for the send that holds it
  (`src/orchestrator/mod.rs:244-252`).  `TeamSessions.DeferredShutdown`: that session stays out of the map, whatever
  happens short of a new spawn, exactly when at that moment there is no rival: no second session under the key and no
  second send or unfinished spawn.  With two sends in flight (`TwoSendsInFlight`) the other one can take the mark
  (`ConcurrentSendsLoseTheMark`).  A mark recorded after the check and before the re-insert is always missed
  (`MarkAfterTheCheckIsIgnored`).
- **What a spawn supersedes.**  A new session is meant to supersede pending shutdowns
  (`src/orchestrator/mod.rs:163`).  The mark of a stop that came before the spawn can still arrive after it and end the
  new session (`TeamSessions.StaleStopEndsTheNewSession`).  `SpawnSupersedes`: the new session outlives every run
  without a further stop or spawn on its key exactly when no earlier operation on the key is under way.
- **A failed write.**  When the write to the child fails, the session stays alive behind a closed gate, and every later
  call waits for a previous turn that does not exist (`ClaudeSession.FailedWriteShutsTheGate`, `Send`).
  `ReopensExactlyWhenOwed`: short of the end of the session such a gate can reopen exactly when a turn is outstanding.
- **No entry lost.**  The append opens the file and then writes (`src/team_mode/service/lead_pending.rs:160-164`); a
  hook may rename and read the file in between, and the entry goes into a file that nobody will read
  (`LeadPending.LateWriteIsLost`).  A hook that is killed takes along what it renamed or read
  (`KilledHookLosesItsFile`).  `DrainIsFifo` says, for every run, exactly when the batches and the pending content are
  the appended queue, and `DeliveryIsExact` exactly when everything is injected, in the hands of a live hook, or pending.
- **Managed block.**  Rewriting is idempotent exactly when the text has no marker or BEGIN stands before END, and the
  url holds no END marker (`ManagedBlock.RewriteIsIdempotent`).  A lone BEGIN is a text that changes again
  (`LoneBeginDrifts`); any unpaired or inverted marker is another (`MisplacedMarkersDrift`).
- **Skipping a failed match.**  `src/backend/router.rs:117-119` says no match can start inside the one just skipped.
  Keywords for which that loses a text are exactly those that overlap themselves behind a character that is no ASCII
  letter or digit (`WordSearch.CompleteKeywords`); `a-a` in `xa-a-a` is one (`HyphenatedIsMissed`).  For plain
  alphanumeric keywords the search is exact.
- **Redaction.**  The cursor moves on by the length of the mask even when nothing was replaced.  A key with an empty
  value makes the pass panic or skip a following secret (`Redaction.EmptyValuePanics`, `EmptyValueHidesTheNext`);
  `Redaction.RedactsExactlyWhenValued` and, for all passes of a line, `LineRedaction.PassesMaskExactly` give the exact
  condition.
- **Context budget.**  The budget is documented in characters (`src/memory/mod.rs:51-52`) and counted in bytes
  (`Memory.BudgetCountsBytes`).  The two readings select the same turns under every budget exactly when all contents
  are ASCII (`Memory.BudgetIsCharactersForAscii`).
- **Uninstall.**  `uninstall-global` fails exactly when one of the two hook events is not an array
  (`GlobalInstall.HooksRoundTrip`), although an install has accepted such a file because the command occurs in it
  (`StringHookCannotBeUninstalled`).
- **Registry mirror.**  A future that is dropped while it awaits leaves session table and registry apart exactly when it
  was shutting a session down or sending to a failed one (`RuntimeRegistry.DropBreaksTheMirror`);
  `DroppedShutdownLeavesAnOrphan` is such a run, and `DropsAndRepairs` follows the damage through any history.
- **Log hint.**  For a tail length of zero, and only then, the hint names one line and the snapshot prints none
  (`CodexStderr.HintMatchesSnapshot`).

One comment gives the wrong reason for a claim that holds: `src/backend/claude_code.rs:424` says that marking the
session busy blocks any concurrent sender.  The load and the store of `idle` are two steps, so two concurrent calls
would both proceed (`ClaudeSession.TwoCallsOverlap`).  What serialises turns is that `send_input` borrows the session
mutably, so that there never are two (`TurnsAreSerial`).

## Model

| member | source | states |
|---|---|---|
| TeamSessions.UniqueOwnership | src/orchestrator/mod.rs:155-172 | in every interleaving of spawn, send, shutdown, kill and cancellation each session ever spawned is in exactly one map entry, one suspended operation or the record of ended sessions, and no two operations hold the same session |
| TeamSessions.RunKeepsInv | src/orchestrator/mod.rs:99-660 | unique ownership, with the bounds on ids and marks that make it inductive, holds after any run from any state in which it holds |
| TeamSessions.MovedIsAt | src/orchestrator/mod.rs:606-653 | a step moves a session only along the one route it names; every other session stays where it was |
| TeamSessions.CameFrom | src/orchestrator/mod.rs:155-172 | every place occupied after a step was filled from exactly one place before it, or by a fresh spawn |
| TeamSessions.MarkRemoval | src/orchestrator/mod.rs:163-167 | a pending mark disappears only through a send on that key, whose session can then never return to the map, or through a spawn that clears its own key or a mark older than the TTL |
| TeamSessions.MarkLivesSixtySeconds | src/orchestrator/mod.rs:247-252 | after a stop records its mark, in every run without another mark, check or spawn on the key: the mark is there as long as less than sixty seconds have passed, and a spawn of another key keeps it exactly if less than that has passed by then |
| TeamSessions.OwnSpawnTakesTheMark | src/orchestrator/mod.rs:163-166 | a spawn of the key itself takes the mark, however fresh |
| TeamSessions.StopEndsAsAsked | src/orchestrator/mod.rs:238-276 | a stop that finds the session ends it by a shutdown or by a kill, as asked, whatever others do until it is done |
| TeamSessions.SpawnInstalls | src/orchestrator/mod.rs:155-172 | a spawn puts its own session under the key and shuts down the one it found there |
| TeamSessions.FailedSpawnEndsItsOwn | src/orchestrator/mod.rs:99-152 | a spawn whose registration fails changes neither map and shuts its own session down |
| TeamSessions.MarkIsHonoured | src/orchestrator/mod.rs:637-649 | a send that finds the mark uses it up and shuts its own session down |
| TeamSessions.DoomedStays | src/orchestrator/mod.rs:643-649 | a session that is ended, or held by an operation that can only end it, remains so under every step |
| TeamSessions.DoomedIsNotLive | src/orchestrator/mod.rs:643-649 | such a session is in no map entry |
| TeamSessions.DeferredShutdown | src/orchestrator/mod.rs:636-654 | for a marked key whose sender has not looked yet: in all continuations without a new spawn that session stays out of the map, if and only if there is no rival |
| TeamSessions.ContainedRun | src/orchestrator/mod.rs:636-654 | the safe half over whole runs: with no rival, no run without spawns brings the session back |
| TeamSessions.RivalRevives | src/orchestrator/mod.rs:637-640 | the other half: from any state with a rival operation there is a run without spawns after which the session is back in the map |
| TeamSessions.MappedRevives | src/orchestrator/mod.rs:606-611 | a second session under the key is a rival too: a send on it takes the mark |
| TeamSessions.UnmarkedRevives | src/orchestrator/mod.rs:650-653 | a sender that finds no mark puts its session back |
| TeamSessions.TwoSendsInFlight | src/orchestrator/mod.rs:606-614 | a state with two sends in flight on one key is reachable from the start |
| TeamSessions.ConcurrentSendsLoseTheMark | src/orchestrator/mod.rs:244-252 | from any such state, a shutdown or kill requested now has a continuation without spawns in which the other send eats the mark and this session returns |
| TeamSessions.MarkAfterTheCheckIsIgnored | src/orchestrator/mod.rs:637-653 | a shutdown between check and re-insert leaves the session in the map with its mark pending |
| TeamSessions.SpawnSupersedes | src/orchestrator/mod.rs:163-172 | for a session in the map without a pending mark: in all runs in which nobody starts a stop or a spawn on its key and no operation is dropped it is never ended, if and only if no stop, spawn or send on the key is already under way |
| TeamSessions.SafeRun | src/orchestrator/mod.rs:606-653 | the safe half over whole runs: such a session stays in the map or with the one send on its key |
| TeamSessions.ThreatEnds | src/orchestrator/mod.rs:155-167 | the other half: each such operation has a run in which it ends the session |
| TeamSessions.StaleStopEndsTheNewSession | src/orchestrator/mod.rs:238-252 | from the start: a stop that finds nothing, a whole spawn, and then the stop's mark, which ends the new session |
| TeamSessions.TeamOrchestrator.StoreSession | src/orchestrator/mod.rs:156-161 | first lock of a spawn: inserts the new session and hands the replaced one to the spawn; is the step of the machine and keeps the invariant |
| TeamSessions.TeamOrchestrator.ClearPending | src/orchestrator/mod.rs:164-172 | second lock of a spawn: drops its own mark and the stale ones; keeps the invariant |
| TeamSessions.TeamOrchestrator.TakeForStop | src/orchestrator/mod.rs:240-246 | first lock of shutdown and force-kill; keeps the invariant |
| TeamSessions.TeamOrchestrator.MarkPending | src/orchestrator/mod.rs:273-275 | records the mark at the present time when no session was found; keeps the invariant; `MarkLivesSixtySeconds` says what that time is for |
| TeamSessions.TeamOrchestrator.TakeForSend | src/orchestrator/mod.rs:607-611 | takes the session out, or reports a dead agent and changes nothing |
| TeamSessions.TeamOrchestrator.CheckPending | src/orchestrator/mod.rs:637-649 | removes the mark and decides between ending and returning the session; keeps the invariant |
| TeamSessions.TeamOrchestrator.PutBack | src/orchestrator/mod.rs:650-653 | re-inserts the session, dropping whatever was inserted meanwhile; keeps the invariant |
| TeamSessions.TeamOrchestrator.Interleave | src/orchestrator/mod.rs:99-660 | the object, driven through any schedule of these and the remaining steps, ends in the state the machine reaches and keeps the invariant |
| ClaudeSession.NoLostWakeup | src/backend/claude_code.rs:399-422 | in no reachable state is a sender parked with the gate open unless it can wake now or the reader's very next step wakes it, on the result, EOF, read-error and poisoned-lock paths, for any number of senders |
| ClaudeSession.RunKeepsWakeInv | src/backend/claude_code.rs:402-406 | the permit-before-check and store-before-notify discipline is inductive over all interleavings |
| ClaudeSession.TurnsAreSerial | src/backend/claude_code.rs:389-443 | with exclusive callers at most one user turn is outstanding until the gate is forced open, and an alive and idle session has none |
| ClaudeSession.ConcurrentCallsOverlap | src/backend/claude_code.rs:404-425 | without the mutable borrow: whenever the gate is open and two calls are about to look at it, there is a run that adds two outstanding turns |
| ClaudeSession.TwoCallsOverlap | src/backend/claude_code.rs:399-425 | such a state is reachable from a new session, by a run whose callers are not exclusive and which leaves two turns outstanding |
| ClaudeSession.BothWrite | src/backend/claude_code.rs:424-442 | two senders that have both seen the gate open both deliver |
| ClaudeSession.ReopensExactlyWhenOwed | src/backend/claude_code.rs:424-442 | a live session with a closed gate, a free reader and no call under way has a run that reopens the gate before the session ends, if and only if a turn is outstanding |
| ClaudeSession.ShutStays | src/backend/claude_code.rs:602-607 | behind a gate closed with no turn outstanding nothing changes that, for any callers, until EOF, a read error or a poisoned lock |
| ClaudeSession.FailedWriteShutsTheGate | src/backend/claude_code.rs:430-440 | one write that fails leaves a new session alive behind such a gate, and no run reopens it before its end |
| ClaudeSession.ChannelDropsOnlyData | src/backend/mod.rs:446-473 | consumed plus queued output is an order-preserving subsequence of what was emitted, and holds every control event but the one in delivery or the single one whose delivery failed, after which the reader has stopped and the session is dead or dropped |
| ClaudeSession.OfferKeepsChannelInv | src/backend/mod.rs:460-473 | offering one output, data or control, to a channel that is open, full or closed keeps that |
| ClaudeSession.EmittedPerEvent | src/backend/claude_code.rs:573-616 | in every run: the events of the lines the child wrote are, in order, those captured, at most one whose capture failed, and those not read yet; what was emitted is the readiness event, the outputs of the captured events in order, the last one perhaps still held, and at most one closing error; so there is one control event for each captured result that is not held |
| ClaudeSession.CapturedAreMapped | src/backend/claude_code.rs:602-611 | in any run, what was mapped and what is held are exactly the events whose capture succeeded, in order |
| ClaudeSession.LinesAreCaptured | src/backend/claude_code.rs:567-600 | in any run, from any state, the events of written lines are captured, refused at most once, or still unread, in order |
| ClaudeSession.OneControlPerResult | src/backend/claude_code.rs:661-713 | any sequence of events maps to exactly as many control events as it has results; which ones is the subject of `OutputsSayTheEvents` |
| ClaudeSession.SessionSaysTheEvents | src/backend/claude_code.rs:661-713 | in every run, read off the events' kinds and flags: one completion for the readiness event and for each handled result without error; the errors are the messages of the handled results with error, and then the reason the reader gave up; the deltas spell the text blocks of the handled assistant messages; nothing else is emitted |
| ClaudeSession.OutputsSayTheEvents | src/backend/claude_code.rs:661-713 | the same for the outputs of any sequence of events |
| ClaudeSession.FarewellTellsTheReason | src/backend/claude_code.rs:555-566 | in any run the closing errors are the reasons for which the reader gave up |
| ClaudeSession.RoomDropsNothing | src/backend/mod.rs:460-473 | in every run in which the channel has room whenever an event is mapped, all that is emitted arrives in order, but for one failed control event |
| ClaudeSession.ReaderWorksOn | src/backend/claude_code.rs:548-616 | in every run without an end of the session, the child or the receiver, the session is alive and its reader can take the next step, or waits for a line or for room |
| ClaudeSession.NewSessionIsWorking | src/backend/claude_code.rs:300-320 | a new session is one of which the last two rows speak |
| ClaudeSession.CapturedEventIsEmitted | src/backend/claude_code.rs:604-611 | between a successful session-id capture and its emission the reader has no step that loses the event |
| ClaudeSession.ClaudeCodeSession.Send | src/backend/claude_code.rs:389-443 | a whole call with reader, child, consumer and owner at work between any two of its actions: no call is left in progress, the turn of a delivered line is the only one outstanding and the gate is closed, a failed write leaves the gate shut for good, behind a shut gate a call only times out or finds the agent dead, an error about a dead agent means it is dead, and an idle live session left alone is written to |
| ClaudeSession.ClaudeCodeSession.SendInput | src/backend/claude_code.rs:389-443 | each atomic action of a call changes the shared cells as the machine says and keeps all four invariants: no lost wakeup, serial turns, only data dropped, one control event per result |
| ClaudeSession.ClaudeCodeSession.ApplyEvent | src/backend/claude_code.rs:549-607 | the same for the reader up to an event, and for its EOF, read-error and poisoned-lock exits |
| ClaudeSession.ClaudeCodeSession.EmitEvent | src/backend/claude_code.rs:608-616 | maps the event and offers the output that `OutputsSayTheEvents` speaks of, and keeps the invariants |
| ClaudeSession.ClaudeCodeSession.SendAgentOutput | src/backend/mod.rs:435-474 | queues, drops or refuses data and lets control wait, and the channel still holds a subsequence with every control event accounted for |
| ClaudeSession.ClaudeCodeSession.FinishDelivery | src/backend/mod.rs:446-459 | delivery, timeout or closed channel, the closing error, and the abort of the reader keep the invariants |
| ClaudeSession.ClaudeCodeSession.Interleave | src/backend/claude_code.rs:536-642 | the object, driven through any schedule with exclusive callers, ends in the state the machine reaches and keeps the invariants |
| LeadPending.DrainIsFifo | scripts/hooks/lead-pending-async-wake.js:112-136 | in every run, batches in rename order followed by the pending content equal the appended sequence, if and only if nothing was written to a file after it was read, no read of a non-empty file failed, and no renamed file that was not read holds anything |
| LeadPending.DeliveryIsExact | scripts/hooks/lead-pending-async-wake.js:203-224 | in every run, what live hooks have injected, carry or are about to read, in rename order, followed by the pending content, equals the appended sequence, if and only if no step wrote to a file that was read or whose hook was gone, failed to read a non-empty file, or killed a hook that carried something or was about to read it |
| LeadPending.KilledHookLosesItsFile | scripts/hooks/lead-pending-mid-turn.js:135-153 | two runs from the start in which the one appended entry goes with a hook killed between rename and read, and with one killed after the read |
| LeadPending.RunCompletes | scripts/hooks/lead-pending-mid-turn.js:132-154 | after any run every batch holds all of its file exactly when no step of the run was a losing one |
| LeadPending.AtomicAppendsLoseNothing | src/team_mode/service/lead_pending.rs:158-164 | when no rename falls between opening and writing, and reads succeed, no step loses an entry |
| LeadPending.LateWriteIsLost | src/team_mode/service/lead_pending.rs:160-164 | a run from the start in which every file is read and the one appended entry is neither taken nor pending |
| LeadPending.InjectsWhatItTook | scripts/hooks/lead-pending-async-wake.js:203-224 | a hook that injects, injects exactly what it read from the files it renamed, in rename order, grace rescan included |
| LeadPending.CarriedIsInjected | scripts/hooks/lead-pending-async-wake.js:203-224 | from any reachable state and among any other steps, a hook that carries something and is not killed keeps it, can always take its next step, and injects all it found within seven of them, a polling hook after starting exactly one more scan, a one-shot hook after none |
| LeadPending.PollingHookInjects | scripts/hooks/lead-pending-async-wake.js:211-222 | from every reachable state, such a hook has a run by its own steps alone that ends with the injection |
| LeadPending.EmptyHandedDecision | scripts/hooks/lead-pending-mid-turn.js:225-228 | a hook that has found nothing goes on polling, or gives up if it was to scan only once |
| LeadPending.PollingHookStays | scripts/hooks/lead-pending-async-wake.js:203-224 | in every run a polling hook that is not killed is there until it has injected, and never injects nothing |
| LeadPending.PrefixesFlatten | scripts/hooks/lead-pending-async-wake.js:107-111 | beginnings of files concatenate to all their content exactly when each is its whole file |
| LeadPending.PendingDirectory.DrainPendingFile | scripts/hooks/lead-pending-async-wake.js:112-136 | a whole drain with the writer and other hooks at work before each of its calls: it returns the batch of exactly one file that it and nobody else took, with all that was in it before, or nothing when it took none or the read failed; left alone it takes the file if there is one |
| LeadPending.PendingDirectory.TakeFile | scripts/hooks/lead-pending-mid-turn.js:132-142 | after exists and rename the hook owns the newest renamed file, or has taken none |
| LeadPending.PendingDirectory.ReadFile | scripts/hooks/lead-pending-mid-turn.js:143-154 | what it reads becomes its batch and is added to what it has found |
| LeadPending.PendingDirectory.Append | src/team_mode/service/lead_pending.rs:142-164 | open, then write, as two steps, keep that batches are beginnings of their files, each taken by one hook, and that hooks carry what they read |
| LeadPending.PendingDirectory.Drain | scripts/hooks/lead-pending-mid-turn.js:219-237 | each file-system call of either hook, and the decision after a scan whose laws are `CarriedIsInjected` and `EmptyHandedDecision`, keeps the same |
| LeadPending.PendingDirectory.Interleave | scripts/hooks/lead-pending-async-wake.js:203-224 | the directory, driven through any schedule, ends in the state the machine reaches and keeps the same |
| RuntimeRegistry.RegistryMirrors | src/runtime/orchestrator.rs:116-178 | after any history of calls, failed ones included, registry and session table have the same keys, each entry is the handle of its session, each session is Running without or Failed with an error, and its metadata agrees |
| RuntimeRegistry.ReportsTellTheTables | src/runtime/orchestrator.rs:116-350 | from empty tables and after any calls, who has a session and a handle and what they say is told by the calls and the errors they reported: a member is Failed with an error exactly when that is what the last send or shutdown to touch its session reported, and name, backend, session key and receiver are those of its last spawn |
| RuntimeRegistry.NextReportIsDue | src/runtime/orchestrator.rs:116-350 | after any calls the next one reports exactly the error that the earlier reports and the outcome of its own session call make due |
| RuntimeRegistry.DropBreaksTheMirror | src/runtime/orchestrator.rs:326-350 | a call dropped at its await keeps the mirror, if and only if it was neither shutting down a session nor sending to a failed one |
| RuntimeRegistry.DropsAndRepairs | src/runtime/orchestrator.rs:201-227 | after any history of completed and dropped calls each member is mirrored, a handle without a session, or a running session with its old error; it is mirrored exactly when every harmful drop was followed by a call that wrote or removed both entries |
| RuntimeRegistry.DroppedShutdownLeavesAnOrphan | src/runtime/orchestrator.rs:329-336 | from empty tables a spawn and a dropped shutdown leave a handle without a session |
| RuntimeRegistry.CallMirrors | src/runtime/orchestrator.rs:201-227 | each call keeps the mirror, on its success and on each of its error paths |
| RuntimeRegistry.CallIsLocal | src/runtime/orchestrator.rs:287-305 | a call leaves every other member's session and handle alone, and a failing call registers and removes nobody |
| RuntimeRegistry.RespawnNeedsRemoval | src/runtime/orchestrator.rs:274-305 | a registered member can be spawned again after a call exactly when that call was a clean shutdown or the removal of a dead session |
| RuntimeRegistry.RuntimeOrchestrator.SpawnManagedMember | src/runtime/orchestrator.rs:116-178 | every exit is the specified one; the handle returned is the one registered |
| RuntimeRegistry.RuntimeOrchestrator.ResumeManagedMember | src/runtime/orchestrator.rs:180-199 | refuses an unknown backend, otherwise spawns |
| RuntimeRegistry.RuntimeOrchestrator.SendInput | src/runtime/orchestrator.rs:201-227 | Running, then Failed with the error of the send or Running without one, mirrored either way; `ReportsTellTheTables` ties that to what was reported |
| RuntimeRegistry.RuntimeOrchestrator.TakeOutputReceiver | src/runtime/orchestrator.rs:229-240 | the receiver is handed out once; the mirror is untouched |
| RuntimeRegistry.RuntimeOrchestrator.RemoveDeadSessionIfAny | src/runtime/orchestrator.rs:287-305 | removes exactly a dead session, from both tables |
| RuntimeRegistry.RuntimeOrchestrator.ShutdownManagedMember | src/runtime/orchestrator.rs:326-350 | removes both entries, or on failure puts the session back as Failed in both |
| RuntimeRegistry.SessionRegistry.RegisterHandle | src/runtime/session_registry.rs:20-22 | inserts the handle and returns the one it replaced |
| RuntimeRegistry.SessionRegistry.RemoveHandle | src/runtime/session_registry.rs:24-26 | removes the handle and returns it |
| Inbox.InboxIsLinearizable | src/messaging/mod.rs:136-143 | with lock, read, modify, write and unlock as separate steps of any number of processes that may crash or fail, the file always equals the replay of the operations that took effect in the order they got the lock; a read that succeeds is about to return exactly that, and no other operation returns anything |
| Inbox.ReportsAreTrue | src/messaging/mod.rs:136-145 | in every interleaving a caller is told of success exactly when its operation is in the log under its own ticket |
| Inbox.ReadsReturnTheInbox | src/messaging/mod.rs:169-184 | in every run each read reported as a success returned the replay of the log before its own entry, that is of the operations with smaller tickets |
| Inbox.HealthyRunsSucceed | src/messaging/mod.rs:136-145 | in every run in which no read or write of the file fails, every caller is told of success |
| Inbox.NamesStayInTheirDirectory | src/util/mod.rs:10-36 | names with a separator or NUL, the dot directories and the empty name are refused; plain names up to 255 bytes are not |
| Inbox.StepKeepsLockInv | src/messaging/mod.rs:205-222 | whoever is past the lock owns it and has read the current file, step by step |
| Inbox.MutualExclusion | src/util/file_lock.rs:39-59 | at most one process is between acquire and release |
| Inbox.ReplayMeaning | src/messaging/mod.rs:124-277 | a replayed inbox holds the messages sent since the last clear in order; a message is flagged exactly when it was sent so, or is the first with its id and was marked after it arrived |
| Inbox.FlagsOnlyRise | src/messaging/mod.rs:210-216 | no operation but a clear moves or removes a message; a flag only goes from false to true, and only for the first message with that id |
| Inbox.BroadcastReachesTheListed | src/messaging/mod.rs:159-166 | every listed agent but the sender gets one message per listing after what it had; nobody else gets any |
| Inbox.FileInboxManager.SendMessage | src/messaging/mod.rs:124-146 | appends to one inbox, or refuses the name and changes nothing; every inbox stays the replay of the operations made on it |
| Inbox.FileInboxManager.Broadcast | src/messaging/mod.rs:148-167 | stops at the first member with an invalid name, after having served those before it; every inbox stays the replay of its operations |
| Inbox.FileInboxManager.MarkMessageRead | src/messaging/mod.rs:194-225 | flags the first message with the id; an unknown id is not an error and changes nothing; every inbox stays the replay of its operations |
| Inbox.FileInboxManager.ClearInbox | src/messaging/mod.rs:258-277 | empties one inbox; every inbox stays the replay of its operations |
| ManagedBlock.RewriteIsIdempotent | src/backend/codex.rs:257-287 | for every text and url: a second rewrite changes nothing, if and only if the text has no marker or its first BEGIN precedes its first END, and the url does not contain END |
| ManagedBlock.RewriteKeepsTheRest | src/backend/codex.rs:258-272 | the old block runs from the first BEGIN through the first END and one newline after it; what is before and after it is kept, in order; without a block to replace the old text is a prefix of the new |
| ManagedBlock.ReplacesOneWay | src/backend/codex.rs:258-272 | that description leaves one result for each text and url |
| ManagedBlock.MisplacedMarkersDrift | src/backend/codex.rs:273-286 | with an unpaired or inverted marker the second rewrite always differs from the first |
| ManagedBlock.LoneBeginDrifts | src/backend/codex.rs:273-286 | a text that is a lone BEGIN changes again on the second rewrite, for every url |
| ManagedBlock.SecondPass | src/backend/codex.rs:258-272 | a block after marker-free text is found again and replaced by itself exactly when the url holds no END |
| ManagedBlock.BlockIsFound | src/backend/codex.rs:257-258 | no marker can be read across the seams of text and block |
| ManagedBlock.BlockEnd | src/backend/codex.rs:237-253 | the first END of a block closes it, unless the url brings an earlier one |
| ManagedBlock.EscapeKeepsMarkers | src/backend/codex.rs:315-317 | escaping neither makes nor destroys a marker in the url |
| ManagedBlock.BlockSettings | src/backend/codex.rs:237-253 | for every url the block gives the token its variable and each of the four headers the variable of its own name |
| ManagedBlock.UrlStandsInItsLine | src/backend/codex.rs:243-244 | the escaped url stands between `url = "` at the start of a line and a quote at its end |
| ManagedBlock.UrlReadsBack | src/backend/codex.rs:311-317 | a reader of that string finds its end at the closing quote and gets the url back, whatever the url holds |
| ManagedBlock.AppendsAfterBlankLine | src/backend/codex.rs:273-286 | an appended block starts the file or follows a blank line, with the fewest line breaks added that make one |
| ManagedBlock.RewriteConfig | src/backend/codex.rs:257-287 | the string built by pushes is the specified rewrite |
| WordSearch.CompleteKeywords | src/backend/router.rs:100-127 | a keyword is found in every text that has it as a whole word, if and only if it never overlaps itself behind a character that is no ASCII letter or digit |
| WordSearch.FoundIsThere | src/backend/router.rs:107-116 | true is returned only if some occurrence is bounded on both sides |
| WordSearch.ExactForPlainKeywords | src/backend/router.rs:96-99 | for keywords of ASCII letters and digits the result is exactly the presence of a whole word |
| WordSearch.WhatEndsAWord | src/backend/router.rs:109-113 | letters and digits next to a keyword join it to a longer word; blanks, punctuation and characters beyond ASCII end it |
| WordSearch.TrapIsMissed | src/backend/router.rs:117-121 | for every other self-overlap a text whose whole word is skipped |
| WordSearch.HyphenatedIsMissed | src/backend/router.rs:117-121 | `a-a` stands in `xa-a-a` as a whole word and is not found |
| WordSearch.ContainsWordLoop | src/backend/router.rs:100-127 | the loop with its moving start computes the specified search |
| GlobalInstall.McpInstalls | src/bin/team_mode_service.rs:512-541 | an install adds the server and nothing else, and a second one changes nothing |
| GlobalInstall.McpRoundTrip | src/bin/team_mode_service.rs:291-301 | uninstall after install keeps all other fields and servers, restores the server table exactly when it had no `team-mode`, and removes the file exactly when nothing else was in it |
| GlobalInstall.HooksInstall | src/bin/team_mode_service.rs:543-575 | an install appends at most one entry per event, keeps all other fields, events and entries in order, and a second one changes nothing |
| GlobalInstall.HooksRoundTrip | src/bin/team_mode_service.rs:941-978 | uninstall after install drops exactly the entries that carry the command and keeps the rest in order; an event is restored exactly when it held none; it fails exactly when an event is not an array |
| GlobalInstall.StringHookCannotBeUninstalled | src/bin/team_mode_service.rs:970-972 | a file whose Stop hook is the plain command string is accepted by an install and refused by the uninstall after it |
| GlobalInstall.McpInstallMeans | src/bin/team_mode_service.rs:512-541 | for every file: when an MCP install refuses it and why, a differing `team-mode` server included, when it leaves it alone, and when it writes |
| GlobalInstall.McpUninstallMeans | src/bin/team_mode_service.rs:291-301 | for every file: an MCP uninstall refuses only what cannot be read, leaves a file without a server table as it is, removes just the one server, and deletes the file exactly when nothing is left in it |
| GlobalInstall.HooksInstallMeans | src/bin/team_mode_service.rs:543-575 | for every file: when a hook install refuses it and why, and when it leaves it alone |
| GlobalInstall.HooksUninstallMeans | src/bin/team_mode_service.rs:303-313 | for every file: when a hook uninstall refuses it, that it leaves a file without `hooks` as it is, and that it deletes the file exactly when nothing is left in it |
| GlobalInstall.CommandIsInAString | src/bin/team_mode_service.rs:990-1001 | a value has a command exactly when some string at any depth of it contains the command |
| GlobalInstall.UninstallShows | src/bin/team_mode_service.rs:307-316 | what is left of a settings file after an uninstall, or that it is refused |
| GlobalInstall.RetainFacts | src/bin/team_mode_service.rs:973-976 | the filter leaves no entry with the command and is the identity exactly when there was none |
| GlobalInstall.EntriesCarryTheirCommand | src/bin/team_mode_service.rs:990-1001 | the installed entries are found by the check that looks for them |
| GlobalInstall.InstalledServer | src/bin/team_mode_service.rs:1011-1017 | the server that is installed: its command, its one argument, an empty environment |
| GlobalInstall.InstalledStopHook | src/bin/team_mode_service.rs:1043-1054 | the Stop hook that is installed: one command, which may rewake within two hours |
| GlobalInstall.InstalledPostHook | src/bin/team_mode_service.rs:1056-1065 | the other hook that is installed: one command, and nothing about waking |
| GlobalInstall.HookTable.AppendHookEntry | src/bin/team_mode_service.rs:906-921 | creates the event if need be and appends, or refuses an event that is no array |
| GlobalInstall.HookTable.RemoveHookEntryCommand | src/bin/team_mode_service.rs:961-978 | filters one event and drops it when nothing is left |
| GlobalInstall.MergeSettings | src/bin/team_mode_service.rs:543-575 | the in-place edits of an install yield the specified file or error |
| GlobalInstall.RemoveGlobalHooks | src/bin/team_mode_service.rs:307-316 | the in-place edits of an uninstall yield the specified file, its removal, or an error |
| GlobalInstall.Home.InstallGlobal | src/bin/team_mode_service.rs:278-289 | both files in order; an error in the second leaves the first written; after success both are fixed points |
| GlobalInstall.Home.UninstallGlobal | src/bin/team_mode_service.rs:291-318 | the same for an uninstall |
| CodexStderr.CodexStderrRing.PushLine | src/backend/codex_stderr.rs:34-47 | the ring stays the last 4096 lines of the whole history, numbered consecutively |
| CodexStderr.TailOfRing | src/backend/codex_stderr.rs:49-62 | a snapshot prints the last lines of the whole history, at most 4096 |
| CodexStderr.HintMatchesSnapshot | src/backend/codex_stderr.rs:64-79 | the hinted range is exactly the sequence numbers of the lines the snapshot prints, if and only if the tail length is positive |
| CodexStderr.WhatIsShownWhen | src/backend/codex_stderr.rs:49-66 | there is a snapshot exactly when there is a line, and a hint exactly when there is a log too |
| Redaction.RedactsExactlyWhenValued | src/backend/codex_stderr.rs:151-170 | for every line a pass ends without a panic and with every occurrence of the key followed by exactly the mask, if and only if no value that it reads is empty |
| Redaction.ScanMasksEach | src/backend/codex_stderr.rs:172-195 | then the cursor loop over the changing string yields the line with each value replaced and nothing else touched |
| Redaction.SecondPassIsIdentity | src/backend/codex_stderr.rs:151-170 | a pass over redacted text changes nothing |
| Redaction.RedactionSettles | src/backend/codex_stderr.rs:151-195 | for any keys that cannot overlap a mask: when every occurrence of every key has a value, all passes end, every key is masked in the final text although later passes rewrite it, and the passes change nothing when run again |
| Redaction.PassKeepsOther | src/backend/codex_stderr.rs:151-195 | a pass for one key keeps every other key as redacted, and as full, as it was |
| Redaction.PatternsAreDistinct | src/backend/codex_stderr.rs:119-131 | no pattern the program uses can be read inside a mask or across its ends |
| Redaction.EmptyValuePanics | src/backend/codex_stderr.rs:176-191 | a line ending in a key without a value makes the slice start past the end |
| Redaction.EmptyValueHidesTheNext | src/backend/codex_stderr.rs:188-191 | a secret right after an empty value is left in clear |
| Redaction.RedactKey | src/backend/codex_stderr.rs:154-168 | the in-place loop computes the specified scan, and terminates although the string may grow |
| Redaction.RedactKeys | src/backend/codex_stderr.rs:172-195 | the loop over the patterns composes the passes |
| LineRedaction.PassesMaskExactly | src/backend/codex_stderr.rs:116-134 | for every text and any number of keys, each pass ends with its own key masked everywhere, if and only if no pass reads an empty value in the text with the earlier keys' values replaced |
| LineRedaction.PassesMaskAll | src/backend/codex_stderr.rs:116-134 | then every key is masked in the end |
| SwallowedSecret.LaterPassSwallows | src/backend/codex_stderr.rs:116-134 | that end alone does not tell: in `password=token= 012345678` the token pass meets an empty value, and the program still leaves all ten patterns masked |
| LineRedaction.HeaderIsMasked | src/backend/codex_stderr.rs:136-149 | the first Authorization header, in any letter case, is replaced up to the line break by the mask, is still the first, and everything around it is kept |
| LineRedaction.HeaderPassSettles | src/backend/codex_stderr.rs:136-149 | for every line the header pass done twice is the header pass |
| LineRedaction.LineIsRedacted | src/backend/codex_stderr.rs:116-134 | for every line whose passes read no empty value, the program does not panic and leaves all ten of its patterns masked |
| LineRedaction.TenPatternsAreMasked | src/backend/codex_stderr.rs:119-131 | the same for each of the ten patterns by name |
| LineRedaction.PrefixAsWritten | src/backend/codex_stderr.rs:154-155 | a token prefix occurs exactly where it is written |
| LineRedaction.KeyInAnyCase | src/backend/codex_stderr.rs:177-180 | a key occurs in any mix of ASCII cases |
| LineRedaction.SecretIsReadWhole | src/backend/codex_stderr.rs:181-187 | a value of letters, digits and the usual symbols is read whole, up to a blank, quote or closing bracket |
| LineRedaction.LineSettles | src/backend/codex_stderr.rs:116-134 | if moreover no other Authorization header stands behind the line of the first, redacting the redacted line changes nothing |
| LineRedaction.RedactStderrLine | src/backend/codex_stderr.rs:116-134 | the three passes in order compute the specified line or panic |
| Memory.ConversationMemory.RecordTurn | src/memory/mod.rs:86-97 | the memory stays the last `max_turns` turns recorded since it was made or cleared |
| Memory.ConversationMemory.Clear | src/memory/mod.rs:138-141 | forgets the history |
| Memory.ConversationMemory.FormatContext | src/memory/mod.rs:104-136 | the output shows the longest suffix of the stored turns that fits the budget with the header, in chronological order, or is empty |
| Memory.LongestFit | src/memory/mod.rs:114-121 | stopping at the first turn that does not fit loses nothing: no longer suffix fits |
| Memory.LongestFitIsUnique | src/memory/mod.rs:114-121 | turns and budget determine the output |
| Memory.ContextFitsTheBudget | src/memory/mod.rs:104-136 | the output is within the budget, and empty exactly when not even the latest turn fits |
| Memory.EvictedTurnsLeaveNoTrace | src/memory/mod.rs:93-96 | two histories with the same last turns give the same context |
| Memory.ContextReadsBack | src/memory/mod.rs:110-135 | a context begins with its header, and its lines give back who spoke and what of each shown turn, when no turn spans several lines |
| Memory.TwoLinesReadLikeTwoTurns | src/memory/mod.rs:116-116 | a turn of two lines can read like two turns |
| Memory.BudgetCountsBytes | src/memory/mod.rs:114-119 | a witness: of two turns with the same number of characters one fits a budget and the other does not |
| Memory.BudgetIsCharactersForAscii | src/memory/mod.rs:108-121 | for all stored turns: counting bytes selects the same turns as counting characters under every budget, if and only if all contents are ASCII |
| Memory.BytesShowNoMore | src/memory/mod.rs:114-121 | the context never shows more turns than the documented budget would |
| Memory.NonAsciiIsDropped | src/memory/mod.rs:114-121 | for every turn that is not ASCII there is a budget that it meets in characters and under which it is not shown |
| CheckpointDiff.ComputeDiff | src/checkpoint/query.rs:231-348 | in whatever order the hash tables iterate: each path, task and member gets at most one delta, a common path is modified exactly when its last recorded hash differs, a task delta carries both statuses |
| CheckpointDiff.DiffTasks | src/checkpoint/query.rs:269-310 | exactly one delta for every task whose status differs, none for any other |
| CheckpointDiff.DiffMembers | src/checkpoint/query.rs:312-337 | one delta for every member on one side only |
| CheckpointDiff.DiffLeadsFromAToB | src/checkpoint/query.rs:231-348 | applied edit by edit, each finding the old value it names, the diff turns the paths, statuses and members of the first checkpoint into those of the second |
| CheckpointDiff.DiffBackIsInverse | src/checkpoint/query.rs:231-348 | the diff the other way round undoes it delta by delta |
| CheckpointDiff.EmptyDiffMeansSame | src/checkpoint/query.rs:231-348 | the diff is empty exactly when hashes per path, statuses per task and members agree |
| CheckpointDiff.DiffSaysWhatIsRecorded | src/checkpoint/query.rs:231-348 | read off the recorded entries: the listed files and members are those recorded on one side only, and a task delta is an addition or removal exactly when the task is recorded on one side only |
| CheckpointDiff.LastHashWins | src/checkpoint/query.rs:245-255 | of several entries for a path the last one counts |
| CheckpointDiff.LastTaskWins | src/checkpoint/query.rs:264-268 | of several tasks with an id the last one counts |
| Consensus.ResolveMajority | src/consensus/mod.rs:91-127 | the decision is c exactly when c has more than half of the responses that have not timed out, whichever maximum the hash order picks |
| Consensus.CountVotes | src/consensus/mod.rs:103-106 | the table holds the multiplicity of every content |
| Consensus.VotesCountResponses | src/consensus/mod.rs:91-106 | the votes for a content are the number of responses that have not timed out and answer just that, whoever sent them |
| Consensus.OrderDoesNotMatter | src/consensus/mod.rs:91-127 | permuting the responses changes no majority |
| Consensus.MajorityIsUnique | src/consensus/mod.rs:113-114 | no two contents have a strict majority |
| Consensus.UnanimousMeansEveryVote | src/consensus/mod.rs:162-183 | the unanimous decision is c exactly when there is a vote and all are for c |
| Consensus.UnanimityImpliesMajority | src/consensus/mod.rs:162-183 | what is decided unanimously is the majority decision too |
| Consensus.TimedOutDoNotCount | src/consensus/mod.rs:92-92 | adding timed-out responses changes nothing that is counted |

## Left out

- Registration of members, inboxes, persisted session state and memories around a spawn or a send; they touch neither of the two maps.
- `shutdown_all_teammates`, `take_output_receiver` and `is_alive` of `TeamOrchestrator`: repeated shutdowns, and reads of the map.
- TeamSessions.DeferredShutdown: continuations with a new spawn are outside the statement; what a spawn supersedes is the subject of `SpawnSupersedes`.
- ClaudeSession.TurnsAreSerial: speaks of runs before EOF, a read error or a poisoned lock forces the gate open; it assumes a child that emits one result per message it was sent.
- Relaxed memory ordering and wall-clock time in the gate; process spawning, pipes and the JSON encoding of messages.
- LeadPending: one queue path; a hook serves several teams' paths one after the other. Malformed lines, the identity cache, the service query and the migration of old files are not modelled.
- The file lock's acquisition errors, `read_unread` and the polling loop of the inbox: a filter and a repetition of the read that is modelled.
- Inbox.FileInboxManager.SendMessage: a name of more than 255 bytes whose byte 32 is inside a character makes the program panic while it builds the error; the model refuses it like any other long name.
- Inbox.FileInboxManager.Broadcast: the methods of the class treat each locked operation as one step; their interleaving is the subject of `InboxIsLinearizable`. Team-name validation, which precedes every operation, is not repeated.
- ManagedBlock: locating, reading and replacing the configuration file.
- GlobalInstall: edits of nested JSON values replace the enclosing map field by field; aliasing into the tree is not captured. Skill files, the legacy-hook warning, the removal of empty directories and the project-level install are not modelled.
- Redaction.RedactsExactlyWhenValued: for patterns that cannot overlap a mask, which `PatternsAreDistinct` shows of all that are used. The cursor is counted in characters; a panic of the program on a byte offset inside a character, possible only after an empty value, shows here as a longer scan.
- LineRedaction.LineSettles: lines with a second Authorization header behind a carriage return are outside the statement; if a pass swallows the first header, the second becomes the first and is redacted the next time.
- LineRedaction.LineIsRedacted: one way only, since by `SwallowedSecret.LaterPassSwallows` a later pass can hide an earlier failure; the exact condition is given pass by pass.
- RuntimeRegistry.DropsAndRepairs: the methods of the class run to their end; dropped calls are modelled on the two tables. Reads such as `is_alive` and `interrupt_turn` change neither table.
- Memory: saving and loading memories; `CheckpointDiff`: git storage, filters and the order of lists.
- Weighted voting (floating point), the human-in-the-loop strategy and the dispatch between strategies.
- Routing scores, task graphs, HTTP, the web and terminal interfaces: thin, or floating point.
