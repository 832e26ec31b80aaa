# IMAP connection handler, modelled in Dafny

This project models `MailClientHandler` of sitebricks-mail. That class is the per-connection
Netty handler of an IMAP client. It reads server response lines one at a time and does the following:

- keeps the last 25 lines as a wire trace;
- disconnects on a fatal server message (`* BYE System Error`, the bandwidth-limit alert);
- ignores every line once halted;
- records the `* CAPABILITY` list;
- during login, counts down a two-permit latch on the capability line and on the authentication result;
- during an IMAP IDLE cycle, folds `* n EXISTS` / `* n EXPUNGE` notifications into a pending diff.
  It asks the idler to end the IDLE once, and publishes the diff to the folder observer when the
  server confirms `IDLE terminated`;
- hands every other line to the head of the queue of pending command completions.
  An unmatched line becomes an error record on an error stack.

The project is laid out as follows:

- `wrappers.dfy` holds `Option` and `Result`.
- `lines.dfy` (module `Lines`) classifies lines as the handler's regular expressions and string tests do.
  It models Java's `trim`, `split("[ ]+")`, `parseInt` and ASCII case folding.
- `line_shapes.dfy` (module `LineShapes`) proves what each classifier accepts. For each of the
  six regular expressions it proves both directions: every line of the described form matches, and
  every matching line has that form. It also proves round trips for the notification syntax.
- `connection.dfy` (module `Connection`) is the specification of the handler:
  - `Conn` is the handler's state as a value.
  - Each operation is a function from the old state to the new one.
  - Each call the handler makes to a collaborator (idler, folder observer, command completion)
    is appended to an event log, `events`.
  - What a completion answers when it is offered a line is a parameter, `accepts`.
  - An exception thrown inside `messageReceived` shows as `faulted` in the `Reaction`.
  - `Receive` processes one line and `Run` processes a sequence of lines.
- `properties.dfy` (module `Properties`) holds the lemmas about that specification:
  - the outcome of every branch of `messageReceived`;
  - a state invariant every line preserves;
  - an append-only history, in which errors are only pushed and events only appended;
  - the wire trace is always the last 25 lines;
  - at most one IDLE exit request per cycle;
  - an IDLE cycle reports the net change of its notifications, where the last notification
    for a message number wins.
- `scenarios.dfy` (module `Scenarios`) plays concrete exchanges through `Run`: a successful login,
  a rejected login, an IDLE cycle, an unsolicited line, and a fatal `BYE`.
- `handler.dfy` (module `Handler`) is the class itself. `MailClientHandler` and `PushedData` have
  the source's fields and update them in place. Each method's postcondition ties the new state
  (`State()`) to the matching `Connection` function of the old state. The collaborator calls
  are a ghost event log.

In these places the code behaves as follows, and the model does the same:

- A rejected login pushes two error records: first the extracted reason, then, from
  `disconnectAbnormally`, the whole line (`MailClientHandler.java:126-128`).
- The authentication-success test is case-sensitive: it is `String.matches` without a flag
  (`MailClientHandler.java:117`).
- `disconnectAbnormally` removes the head of the completion queue when it records its error
  (`MailClientHandler.java:198`).
- A notification that arrives after the IDLE exit was requested falls through to `complete`.
  With no completion pending, that records "No completion found!" (`MailClientHandler.java:173-180`).
- While idling, `complete` and the exception handler see the lower-cased line
  (`MailClientHandler.java:138`).
- A notification whose number exceeds `Integer.MAX_VALUE` makes `parseInt` throw. The model takes
  the exception path for it (`MailClientHandler.java:158`, `:165`).

## Model

| member | source | states |
|---|---|---|
| `Lines.Trim` | sitebricks-mail/src/main/java/com/google/sitebricks/mail/MailClientHandler.java:97 | `trim()` for the bandwidth check: the result is no longer than the line, begins and ends with a character above blank, and keeps a first character that already was one |
| `Lines.Split` | sitebricks-mail/src/main/java/com/google/sitebricks/mail/MailClientHandler.java:111 | `split("[ ]+")`: no piece holds a blank |
| `Lines.Decimal` | sitebricks-mail/src/main/java/com/google/sitebricks/mail/MailClientHandler.java:158 | the decimal spelling of a message number is a non-empty run of digits |
| `LineShapes.SplitJoin` | sitebricks-mail/src/main/java/com/google/sitebricks/mail/MailClientHandler.java:111 | splitting words joined by single blanks gives the words back, so the capability list is the advertised words |
| `LineShapes.DecimalValue` | sitebricks-mail/src/main/java/com/google/sitebricks/mail/MailClientHandler.java:158 | `parseInt` of the decimal spelling of n is n |
| `LineShapes.SystemErrorAccepts` | sitebricks-mail/src/main/java/com/google/sitebricks/mail/MailClientHandler.java:35-36 | `[*]\s*bye\s*system\s*error\s*` accepts a star and the three words in any case, with any spaces around them |
| `LineShapes.SystemErrorShape` | sitebricks-mail/src/main/java/com/google/sitebricks/mail/MailClientHandler.java:35-36 | every line `SYSTEM_ERROR_REGEX` matches is a star, then bye, system and error in any case, each preceded by spaces, with only spaces after |
| `LineShapes.BandwidthLimitAccepts` | sitebricks-mail/src/main/java/com/google/sitebricks/mail/MailClientHandler.java:97 | the bandwidth rejection is recognised in any case, with blanks or CR/LF around it |
| `LineShapes.StarLineIsNotFatal` | sitebricks-mail/src/main/java/com/google/sitebricks/mail/MailClientHandler.java:96-97 | a `* ` line whose third character is neither a space nor a b is neither fatal line |
| `LineShapes.StarDigitIsNoControlLine` | sitebricks-mail/src/main/java/com/google/sitebricks/mail/MailClientHandler.java:96-114 | a `* <digit>` line is neither fatal nor a capability line |
| `LineShapes.DotLineIsNoControlLine` | sitebricks-mail/src/main/java/com/google/sitebricks/mail/MailClientHandler.java:96-114 | a tagged `.` line shorter than the bandwidth alert is neither fatal nor a capability line |
| `LineShapes.AuthSuccessShape` | sitebricks-mail/src/main/java/com/google/sitebricks/mail/MailClientHandler.java:117 | `[.] OK .*@.* \(Success\)` matches exactly the lines `. OK x@y (Success)` with x and y on one line (both directions) |
| `LineShapes.AuthSuccessSplits` | sitebricks-mail/src/main/java/com/google/sitebricks/mail/MailClientHandler.java:117 | every login success splits around an `@` into a user part and a domain part on one line |
| `LineShapes.AuthSuccessAccepts` | sitebricks-mail/src/main/java/com/google/sitebricks/mail/MailClientHandler.java:117 | every `. OK x@y (Success)` with x and y on one line is a login success |
| `LineShapes.CommandFailedGroups` | sitebricks-mail/src/main/java/com/google/sitebricks/mail/MailClientHandler.java:122-123 | a `find()` of `^[.] (NO|BAD) (.*)` is a prefix of the line made of `. `, the status (NO or BAD in any case), a blank and a reason on one line that runs to the end of the line; `extractError` hands back the reason |
| `LineShapes.FailedMatchShape` | sitebricks-mail/src/main/java/com/google/sitebricks/mail/MailClientHandler.java:33-34 | the groups of a match start with the literal status and end where the first line ends |
| `LineShapes.FramedStatus` | sitebricks-mail/src/main/java/com/google/sitebricks/mail/MailClientHandler.java:33-34 | a line that starts with `. <status> ` ignoring case starts with `. `, the status as written and a blank |
| `LineShapes.CommandFailedReason` | sitebricks-mail/src/main/java/com/google/sitebricks/mail/MailClientHandler.java:122-126 | for `. <status> r` followed by nothing or by a line terminator, with the status NO or BAD in any mix of case and r on one line, `find()` matches and the login error is exactly r |
| `LineShapes.IdleEndedShape` | sitebricks-mail/src/main/java/com/google/sitebricks/mail/MailClientHandler.java:38-39 | `.* OK IDLE terminated \(success\)\s*` matches exactly a head on one line, the reply in any case and trailing spaces (both directions) |
| `LineShapes.IdleEndedSplits` | sitebricks-mail/src/main/java/com/google/sitebricks/mail/MailClientHandler.java:38-39 | every IDLE-terminated reply splits into a head on one line, the reply text and trailing spaces |
| `LineShapes.IdleEndedJoins` | sitebricks-mail/src/main/java/com/google/sitebricks/mail/MailClientHandler.java:38-39 | every head on one line, followed by the reply text in any case and spaces, is an IDLE-terminated reply |
| `LineShapes.IdleEndedAccepts` | sitebricks-mail/src/main/java/com/google/sitebricks/mail/MailClientHandler.java:138-140 | such a line still matches after `toLowerCase()` |
| `LineShapes.NotificationAccepts` | sitebricks-mail/src/main/java/com/google/sitebricks/mail/MailClientHandler.java:40-43 | `\* (\d+) exists\s*` and `\* (\d+) expunge\s*` accept `* `, digits, the word in any case and spaces, and group 1 parses to the digits' value |
| `LineShapes.NotificationShape` | sitebricks-mail/src/main/java/com/google/sitebricks/mail/MailClientHandler.java:40-43 | every line these patterns accept has that shape, and the number is the value of its digits |
| `LineShapes.NotificationRoundTrip` | sitebricks-mail/src/main/java/com/google/sitebricks/mail/MailClientHandler.java:158 | the number announced in `* n exists` or `* n expunge` is read back as n |
| `LineShapes.NotificationStart` | sitebricks-mail/src/main/java/com/google/sitebricks/mail/MailClientHandler.java:155-165 | a notification starts with a star, a blank and a digit, whatever the case of the line |
| `LineShapes.ExistsExpungeExclusive` | sitebricks-mail/src/main/java/com/google/sitebricks/mail/MailClientHandler.java:155-170 | no line is both an EXISTS and an EXPUNGE notification, so the `else` order does not matter |
| `LineShapes.NotificationNotIdleEnded` | sitebricks-mail/src/main/java/com/google/sitebricks/mail/MailClientHandler.java:140 | an EXISTS or EXPUNGE line never ends IDLE |
| `LineShapes.NotificationIsNoControlLine` | sitebricks-mail/src/main/java/com/google/sitebricks/mail/MailClientHandler.java:96-140 | a notification line is not fatal, not a capability line and does not end IDLE, so while idling it reaches the notification branch |
| `Connection.TraceAdd` | sitebricks-mail/src/main/java/com/google/sitebricks/mail/MailClientHandler.java:90-93 | adding a line to a trace of at most 25 lines keeps the latest 25 |
| `Connection.Record` | sitebricks-mail/src/main/java/com/google/sitebricks/mail/MailClientHandler.java:283-292 | `errorStack.push(new Error(..))`: a record carrying a copy of the trace goes on top, nothing else changes |
| `Connection.CountDown` | sitebricks-mail/src/main/java/com/google/sitebricks/mail/MailClientHandler.java:48 | the latch count drops by one while positive and stays at zero |
| `Connection.NullIfEmpty` | sitebricks-mail/src/main/java/com/google/sitebricks/mail/MailClientHandler.java:149-150 | `null` exactly for an empty set, the set itself otherwise |
| `Connection.AddExists` | sitebricks-mail/src/main/java/com/google/sitebricks/mail/MailClientHandler.java:159-160 | the message is added and not removed, every other number keeps its state, a disjoint diff stays disjoint |
| `Connection.AddExpunge` | sitebricks-mail/src/main/java/com/google/sitebricks/mail/MailClientHandler.java:166-167 | the message is removed and not added, every other number keeps its state, a disjoint diff stays disjoint |
| `Connection.Enqueue` | sitebricks-mail/src/main/java/com/google/sitebricks/mail/MailClientHandler.java:82-84 | the completion joins the back of the queue, the queue ahead of it is unchanged, nothing else changes |
| `Connection.Observe` | sitebricks-mail/src/main/java/com/google/sitebricks/mail/MailClientHandler.java:269-273 | the observer is set, a fresh empty push cycle is armed, `idleAcknowledged` is cleared, nothing else changes |
| `Connection.Halt` | sitebricks-mail/src/main/java/com/google/sitebricks/mail/MailClientHandler.java:275-277 | the halt flag is raised and nothing else changes |
| `Connection.DisconnectAbnormally` | sitebricks-mail/src/main/java/com/google/sitebricks/mail/MailClientHandler.java:194-200 | halts, pushes a record about the head completion, which leaves the queue, asks the idler to disconnect, changes nothing else, and keeps the history rules |
| `Connection.ExceptionCaught` | sitebricks-mail/src/main/java/com/google/sitebricks/mail/MailClientHandler.java:236-240 | a transport fault disconnects with the fault's message |
| `Connection.Fault` | sitebricks-mail/src/main/java/com/google/sitebricks/mail/MailClientHandler.java:181-191 | a line that throws is reported to the head completion through `error`, and that completion leaves the queue; with none pending a "No completions available!" record is pushed; nothing else changes and the exception escapes |
| `Connection.Complete` | sitebricks-mail/src/main/java/com/google/sitebricks/mail/MailClientHandler.java:209-234 | `complete` keeps the halt, login, latch and idling flags, the observer, the push data and the trace, never asks the idler to leave IDLE, only appends records and calls, and consumes at most the head completion |
| `Connection.Idle` | sitebricks-mail/src/main/java/com/google/sitebricks/mail/MailClientHandler.java:136-178 | the idling branch leaves the trace alone; its outcomes are the `Properties.Idle*` lemmas |
| `Connection.Login` | sitebricks-mail/src/main/java/com/google/sitebricks/mail/MailClientHandler.java:116-132 | the login branch keeps the history rules and leaves the trace and push data alone; its outcomes are the `Properties.Login*` lemmas |
| `Connection.Receive` | sitebricks-mail/src/main/java/com/google/sitebricks/mail/MailClientHandler.java:87-93 | every line is added to the trace, whatever else happens; the branches are the `Properties.Receive*` lemmas |
| `Connection.LastError` | sitebricks-mail/src/main/java/com/google/sitebricks/mail/MailClientHandler.java:260-262 | pops the top record, or gives `null` and changes nothing when there is none |
| `Connection.AwaitLogin` | sitebricks-mail/src/main/java/com/google/sitebricks/mail/MailClientHandler.java:246-253 | with both permits in, returns the login flag and changes nothing; otherwise pushes the timeout record and fails |
| `Properties.Noted` | sitebricks-mail/src/main/java/com/google/sitebricks/mail/MailClientHandler.java:155-170 | folding a notification in keeps the exit flag and keeps the diff disjoint |
| `Properties.IdleEndedFlushes` | sitebricks-mail/src/main/java/com/google/sitebricks/mail/MailClientHandler.java:140-151 | the end of IDLE clears both idle flags, drops the push data, calls `idleEnd` and then hands the observer the cycle's adds and removes, `null` for an empty set |
| `Properties.IdleEndedFaults` | sitebricks-mail/src/main/java/com/google/sitebricks/mail/MailClientHandler.java:145-150 | with no push data or no observer the end of IDLE still clears the flags and calls `idleEnd`, then throws |
| `Properties.IdleNoticeRequestsExit` | sitebricks-mail/src/main/java/com/google/sitebricks/mail/MailClientHandler.java:155-176 | the first notification of a cycle is folded in, calls `done` and marks the exit as requested |
| `Properties.IdleNoticeAfterExit` | sitebricks-mail/src/main/java/com/google/sitebricks/mail/MailClientHandler.java:155-180 | a later notification is folded in and then goes on to `complete` |
| `Properties.IdleNoticeFaults` | sitebricks-mail/src/main/java/com/google/sitebricks/mail/MailClientHandler.java:157-166 | a notification throws when its number is beyond `Integer.MAX_VALUE` or no push data exists |
| `Properties.IdleOtherCompletes` | sitebricks-mail/src/main/java/com/google/sitebricks/mail/MailClientHandler.java:178-180 | any other line while idling goes to `complete`, lower-cased |
| `Properties.FlushEvolves` | sitebricks-mail/src/main/java/com/google/sitebricks/mail/MailClientHandler.java:140-151 | the flush keeps the history rules and the invariant |
| `Properties.EndedFaultEvolves` | sitebricks-mail/src/main/java/com/google/sitebricks/mail/MailClientHandler.java:140-151 | the end of IDLE that throws keeps the history rules and the invariant |
| `Properties.RequestExitEvolves` | sitebricks-mail/src/main/java/com/google/sitebricks/mail/MailClientHandler.java:173-176 | requesting the exit disarms the cycle and is then the only `done` call |
| `Properties.NoteThenCompleteEvolves` | sitebricks-mail/src/main/java/com/google/sitebricks/mail/MailClientHandler.java:155-180 | a notification after the exit request keeps the history rules and the invariant |
| `Properties.IdleEvolves` | sitebricks-mail/src/main/java/com/google/sitebricks/mail/MailClientHandler.java:136-178 | the idling branch keeps the history rules and the invariant |
| `Properties.IdleEndedEvolves` | sitebricks-mail/src/main/java/com/google/sitebricks/mail/MailClientHandler.java:140-152 | the end-of-IDLE branch keeps the history rules and the invariant |
| `Properties.IdleNoticeEvolves` | sitebricks-mail/src/main/java/com/google/sitebricks/mail/MailClientHandler.java:155-180 | the notification and fall-through branches keep the history rules and the invariant |
| `Properties.Traced` | sitebricks-mail/src/main/java/com/google/sitebricks/mail/MailClientHandler.java:90-93 | a traced state differs from the old one only in the trace, which gains the line |
| `Properties.ReceiveFatal` | sitebricks-mail/src/main/java/com/google/sitebricks/mail/MailClientHandler.java:96-101 | a system error or bandwidth alert disconnects, halted or not, and nothing throws |
| `Properties.ReceiveHalted` | sitebricks-mail/src/main/java/com/google/sitebricks/mail/MailClientHandler.java:104-108 | once halted every other line is only traced |
| `Properties.ReceiveCapability` | sitebricks-mail/src/main/java/com/google/sitebricks/mail/MailClientHandler.java:109-114 | a capability line records the words after the prefix and counts the latch down, logged in or not |
| `Properties.ReceiveCapabilityFaults` | sitebricks-mail/src/main/java/com/google/sitebricks/mail/MailClientHandler.java:109-111 | a bare `* CAPABILITY` throws (the substring is out of range) |
| `Properties.ReceiveBeforeLogin` | sitebricks-mail/src/main/java/com/google/sitebricks/mail/MailClientHandler.java:116-132 | before login every other line is a login result |
| `Properties.ReceiveIdling` | sitebricks-mail/src/main/java/com/google/sitebricks/mail/MailClientHandler.java:136-138 | while idling, the lower-cased line goes to the IDLE branch |
| `Properties.ReceiveCompletes` | sitebricks-mail/src/main/java/com/google/sitebricks/mail/MailClientHandler.java:180 | otherwise the line, as received, goes to `complete` |
| `Properties.TracedEvolves` | sitebricks-mail/src/main/java/com/google/sitebricks/mail/MailClientHandler.java:90-93 | tracing first does not break the history rules, and the trace stays within 25 lines |
| `Properties.ReceiveEvolves` | sitebricks-mail/src/main/java/com/google/sitebricks/mail/MailClientHandler.java:87-192 | any line keeps the history rules (flags never cleared, latch only down, calls and records only appended, at most the head completion consumed, at most one `done` per armed cycle) and the invariant |
| `Properties.ReceiveKeepsInvariant` | sitebricks-mail/src/main/java/com/google/sitebricks/mail/MailClientHandler.java:87-192 | any line keeps the invariant: a trace of at most 25 lines, a latch within its two permits, a disjoint push diff |
| `Properties.CompleteInvalidTag` | sitebricks-mail/src/main/java/com/google/sitebricks/mail/MailClientHandler.java:212-216 | the invalid-tag quirk is recorded against the head completion, which stays pending, and nobody is called |
| `Properties.CompleteOffersHead` | sitebricks-mail/src/main/java/com/google/sitebricks/mail/MailClientHandler.java:231-233 | with a completion pending the line is offered to the head only, which leaves the queue exactly when it accepts the line |
| `Properties.CompleteIdleAcknowledged` | sitebricks-mail/src/main/java/com/google/sitebricks/mail/MailClientHandler.java:219-223 | with nothing pending, `+ idling` calls `idleStart` and sets `idleAcknowledged`, with no record |
| `Properties.CompleteUnmatched` | sitebricks-mail/src/main/java/com/google/sitebricks/mail/MailClientHandler.java:224-227 | with nothing pending any other line is recorded as unmatched and nobody is called |
| `Properties.EnqueueDoesNotOvertake` | sitebricks-mail/src/main/java/com/google/sitebricks/mail/MailClientHandler.java:82-84 | a completion enqueued behind a pending one does not change what the next line does: it still goes to the older one |
| `Properties.LastErrorUndoesRecord` | sitebricks-mail/src/main/java/com/google/sitebricks/mail/MailClientHandler.java:260-262 | `lastError` returns the record just pushed and restores the stack |
| `Properties.AuthOutcomesExclusive` | sitebricks-mail/src/main/java/com/google/sitebricks/mail/MailClientHandler.java:117-123 | a success reply is never also a NO or BAD reply |
| `Properties.LoginAccepted` | sitebricks-mail/src/main/java/com/google/sitebricks/mail/MailClientHandler.java:117-120 | a success reply logs in and counts the latch down, nothing else |
| `Properties.LoginRejected` | sitebricks-mail/src/main/java/com/google/sitebricks/mail/MailClientHandler.java:122-129 | a NO or BAD reply counts the latch down, records the reason, then records the whole line against the head completion, which leaves the queue, halts and disconnects; nothing else changes, so the handler stays logged out |
| `Properties.LoginIgnores` | sitebricks-mail/src/main/java/com/google/sitebricks/mail/MailClientHandler.java:116-131 | any other line before login changes nothing |
| `Properties.AwaitLoginOutcome` | sitebricks-mail/src/main/java/com/google/sitebricks/mail/MailClientHandler.java:246-253 | `awaitLogin` succeeds exactly when both permits are in, and returns true exactly when the handler is also logged in |
| `Properties.HistoryStep` | sitebricks-mail/src/main/java/com/google/sitebricks/mail/MailClientHandler.java:87-192 | a step that keeps the one-line history rules extends a run's history |
| `Properties.RunHistory` | sitebricks-mail/src/main/java/com/google/sitebricks/mail/MailClientHandler.java:87-192 | over any sequence of lines the flags are never cleared, the latch never goes back, calls and records are only appended, completions leave only from the front, and the invariant holds |
| `Properties.RunTraceStep` | sitebricks-mail/src/main/java/com/google/sitebricks/mail/MailClientHandler.java:90-93 | one more line slides the window of the latest lines by one |
| `Properties.RunTraceIsLatest` | sitebricks-mail/src/main/java/com/google/sitebricks/mail/MailClientHandler.java:90-93 | after any sequence of lines the trace is the latest 25 lines received, in order |
| `Properties.RunRequestsExitAtMostOnce` | sitebricks-mail/src/main/java/com/google/sitebricks/mail/MailClientHandler.java:173-176 | over any sequence of lines `done` is called at most once per armed push cycle and never outside one |
| `Properties.RunFromInitial` | sitebricks-mail/src/main/java/com/google/sitebricks/mail/MailClientHandler.java:65-68 | a fresh handler keeps its invariant and never calls `done` before `observe` |
| `Properties.NoteAll` | sitebricks-mail/src/main/java/com/google/sitebricks/mail/MailClientHandler.java:155-170 | folding notifications in keeps the exit flag and keeps the diff disjoint |
| `Properties.NoteAllLastWins` | sitebricks-mail/src/main/java/com/google/sitebricks/mail/MailClientHandler.java:155-170 | after a cycle a message is added exactly when the last notification about it was EXISTS, removed exactly when it was EXPUNGE, and as before when there was none |
| `Properties.NotedIgnoresExitFlag` | sitebricks-mail/src/main/java/com/google/sitebricks/mail/MailClientHandler.java:155-170 | folding a notification in neither reads nor changes the exit flag |
| `Properties.RunCoalescesNotifications` | sitebricks-mail/src/main/java/com/google/sitebricks/mail/MailClientHandler.java:155-177 | a run of notifications while idling folds every one into the push data and marks the exit as requested as soon as there was one |
| `Properties.IdleCycleReportsNetChange` | sitebricks-mail/src/main/java/com/google/sitebricks/mail/MailClientHandler.java:140-151 | at the end of an IDLE cycle the observer is told the net effect of the cycle's notifications, `null` for none, and the cycle ends |
| `Scenarios.CapabilityLineSplits` | sitebricks-mail/src/main/java/com/google/sitebricks/mail/MailClientHandler.java:109-111 | `* CAPABILITY IMAP4rev1 IDLE` yields the list IMAP4rev1, IDLE |
| `Scenarios.CapabilityLineClassified` | sitebricks-mail/src/main/java/com/google/sitebricks/mail/MailClientHandler.java:96-111 | that line is not fatal and is a capability line |
| `Scenarios.AcceptedLineIsSuccess` | sitebricks-mail/src/main/java/com/google/sitebricks/mail/MailClientHandler.java:117 | `. OK user@example.com (Success)` is a login success |
| `Scenarios.AcceptedLineClassified` | sitebricks-mail/src/main/java/com/google/sitebricks/mail/MailClientHandler.java:96-117 | that line is not fatal, not a capability line, and a success |
| `Scenarios.RejectedLineFails` | sitebricks-mail/src/main/java/com/google/sitebricks/mail/MailClientHandler.java:122-126 | `. NO bad credentials` fails with the reason `bad credentials` |
| `Scenarios.RejectedLineIsNoSuccess` | sitebricks-mail/src/main/java/com/google/sitebricks/mail/MailClientHandler.java:117 | `. NO bad credentials` is no success |
| `Scenarios.RejectedLineClassified` | sitebricks-mail/src/main/java/com/google/sitebricks/mail/MailClientHandler.java:96-126 | that line is not fatal, not a capability line, no success, and a failure with that reason |
| `Scenarios.ExistsLineClassified` | sitebricks-mail/src/main/java/com/google/sitebricks/mail/MailClientHandler.java:155-158 | `* 3 exists` announces message 3 |
| `Scenarios.IdleEndedLineEnds` | sitebricks-mail/src/main/java/com/google/sitebricks/mail/MailClientHandler.java:138-140 | `. OK IDLE terminated (success)` ends IDLE once lower-cased |
| `Scenarios.IdleEndedLineClassified` | sitebricks-mail/src/main/java/com/google/sitebricks/mail/MailClientHandler.java:96-140 | that line is not fatal, not a capability line, and ends IDLE |
| `Scenarios.UnsolicitedLineClassified` | sitebricks-mail/src/main/java/com/google/sitebricks/mail/MailClientHandler.java:212-226 | `* OK still here` is not fatal, not a capability line, neither the invalid-tag quirk nor `+ idling` |
| `Scenarios.ByeLineClassified` | sitebricks-mail/src/main/java/com/google/sitebricks/mail/MailClientHandler.java:35-36 | `* BYE System Error` is a system error |
| `Scenarios.AfterCapabilities` | sitebricks-mail/src/main/java/com/google/sitebricks/mail/MailClientHandler.java:109-114 | a fresh handler given the capability line records IMAP4rev1 and IDLE and has one permit left |
| `Scenarios.AcceptedLoginAfter` | sitebricks-mail/src/main/java/com/google/sitebricks/mail/MailClientHandler.java:116-120 | capabilities then any success reply: logged in, nothing recorded, nobody called, `awaitLogin` returns true |
| `Scenarios.LoginExchange` | sitebricks-mail/src/main/java/com/google/sitebricks/mail/MailClientHandler.java:246-253 | capabilities then `. OK user@example.com (Success)`: `awaitLogin` returns true at once |
| `Scenarios.RejectedLoginAfter` | sitebricks-mail/src/main/java/com/google/sitebricks/mail/MailClientHandler.java:122-129 | capabilities then any NO or BAD reply: halted, logged out, two records, one disconnect, `awaitLogin` returns false |
| `Scenarios.RejectedLoginExchange` | sitebricks-mail/src/main/java/com/google/sitebricks/mail/MailClientHandler.java:122-129 | capabilities then `. NO bad credentials`: the records are the whole line and `bad credentials`, both with the two-line trace |
| `Scenarios.NoticeStep` | sitebricks-mail/src/main/java/com/google/sitebricks/mail/MailClientHandler.java:155-176 | while idling in an armed cycle a notification calls `done` and folds the number in |
| `Scenarios.EndedStep` | sitebricks-mail/src/main/java/com/google/sitebricks/mail/MailClientHandler.java:140-151 | while idling with push data and an observer the end of IDLE flushes the diff |
| `Scenarios.IdleCycleOf` | sitebricks-mail/src/main/java/com/google/sitebricks/mail/MailClientHandler.java:136-176 | observe, idle, a notification, the end of IDLE: the calls are `done`, `idleEnd`, then `changed` with the net diff |
| `Scenarios.IdleExchange` | sitebricks-mail/src/main/java/com/google/sitebricks/mail/MailClientHandler.java:140-176 | `* 3 exists` then the IDLE-terminated reply: the observer sees message 3 added and `null` removed |
| `Scenarios.UnsolicitedExchange` | sitebricks-mail/src/main/java/com/google/sitebricks/mail/MailClientHandler.java:224-227 | an unsolicited line with nothing pending leaves one record and nothing throws |
| `Scenarios.ByeExchange` | sitebricks-mail/src/main/java/com/google/sitebricks/mail/MailClientHandler.java:96-101 | `* BYE System Error` halts and disconnects in any state |
| `Handler.PushedData.constructor` | sitebricks-mail/src/main/java/com/google/sitebricks/mail/MailClientHandler.java:74-79 | a new push cycle: exit not requested, no adds, no removes |
| `Handler.MailClientHandler.constructor` | sitebricks-mail/src/main/java/com/google/sitebricks/mail/MailClientHandler.java:48-68 | a new handler is in the initial state (two permits, logged out, not halted, empty queues) and keeps the invariant |
| `Handler.MailClientHandler.IsLoggedIn` | sitebricks-mail/src/main/java/com/google/sitebricks/mail/MailClientHandler.java:70-72 | returns the login flag |
| `Handler.MailClientHandler.GetCapabilities` | sitebricks-mail/src/main/java/com/google/sitebricks/mail/MailClientHandler.java:242-244 | returns the capabilities recorded so far, if any |
| `Handler.MailClientHandler.IsHalted` | sitebricks-mail/src/main/java/com/google/sitebricks/mail/MailClientHandler.java:279-281 | returns the halt flag |
| `Handler.MailClientHandler.Enqueue` | sitebricks-mail/src/main/java/com/google/sitebricks/mail/MailClientHandler.java:82-84 | the fields change as `Connection.Enqueue` says; the invariant is kept |
| `Handler.MailClientHandler.Observe` | sitebricks-mail/src/main/java/com/google/sitebricks/mail/MailClientHandler.java:269-273 | a fresh push data object; otherwise as `Connection.Observe` |
| `Handler.MailClientHandler.Halt` | sitebricks-mail/src/main/java/com/google/sitebricks/mail/MailClientHandler.java:275-277 | as `Connection.Halt` |
| `Handler.MailClientHandler.LastError` | sitebricks-mail/src/main/java/com/google/sitebricks/mail/MailClientHandler.java:260-262 | returns and pops as `Connection.LastError` |
| `Handler.MailClientHandler.AwaitLogin` | sitebricks-mail/src/main/java/com/google/sitebricks/mail/MailClientHandler.java:246-258 | returns and records as `Connection.AwaitLogin` |
| `Handler.MailClientHandler.ExceptionCaught` | sitebricks-mail/src/main/java/com/google/sitebricks/mail/MailClientHandler.java:236-240 | as `Connection.ExceptionCaught` |
| `Handler.MailClientHandler.MessageReceived` | sitebricks-mail/src/main/java/com/google/sitebricks/mail/MailClientHandler.java:87-192 | the new state and whether the line threw are exactly `Connection.Receive`'s, and the invariant is kept |
| `Handler.MailClientHandler.Trace` | sitebricks-mail/src/main/java/com/google/sitebricks/mail/MailClientHandler.java:90-93 | the trace gains the line, oldest line dropped beyond 25; the push data object is the same |
| `Handler.MailClientHandler.Disconnected` | sitebricks-mail/src/main/java/com/google/sitebricks/mail/MailClientHandler.java:96-101 | the fatal branch has `Connection.Receive`'s effect |
| `Handler.MailClientHandler.Capabilities` | sitebricks-mail/src/main/java/com/google/sitebricks/mail/MailClientHandler.java:109-114 | the capability branch has `Connection.Receive`'s effect, including the throw on a bare prefix |
| `Handler.MailClientHandler.LoginResult` | sitebricks-mail/src/main/java/com/google/sitebricks/mail/MailClientHandler.java:116-132 | the pre-login branch has `Connection.Receive`'s effect |
| `Handler.MailClientHandler.Dispatch` | sitebricks-mail/src/main/java/com/google/sitebricks/mail/MailClientHandler.java:134-180 | the logged-in branch has `Connection.Receive`'s effect |
| `Handler.MailClientHandler.Login` | sitebricks-mail/src/main/java/com/google/sitebricks/mail/MailClientHandler.java:116-131 | as `Connection.Login` |
| `Handler.MailClientHandler.Idle` | sitebricks-mail/src/main/java/com/google/sitebricks/mail/MailClientHandler.java:136-178 | as `Connection.Idle`, updating the push data object in place |
| `Handler.MailClientHandler.IdleEnded` | sitebricks-mail/src/main/java/com/google/sitebricks/mail/MailClientHandler.java:140-152 | as `Connection.Idle` on the IDLE-terminated reply |
| `Handler.MailClientHandler.Notice` | sitebricks-mail/src/main/java/com/google/sitebricks/mail/MailClientHandler.java:155-177 | as `Connection.Idle` on a notification, folding it into the push data object in place, and throwing on a number beyond `Integer.MAX_VALUE` or missing push data |
| `Handler.PushedData.Fold` | sitebricks-mail/src/main/java/com/google/sitebricks/mail/MailClientHandler.java:157-170 | the push data object's sets become those `Properties.Noted` gives for the notification |
| `Handler.MailClientHandler.Complete` | sitebricks-mail/src/main/java/com/google/sitebricks/mail/MailClientHandler.java:209-234 | as `Connection.Complete` |
| `Handler.MailClientHandler.DisconnectAbnormally` | sitebricks-mail/src/main/java/com/google/sitebricks/mail/MailClientHandler.java:194-200 | as `Connection.DisconnectAbnormally` |
| `Handler.MailClientHandler.Fault` | sitebricks-mail/src/main/java/com/google/sitebricks/mail/MailClientHandler.java:181-191 | as `Connection.Fault`, and reports the throw |
## Left out

- Netty plumbing (`ChannelHandlerContext`, `MessageEvent`), logging, and the configuration, which only supplies the user name for log lines.
- Concurrency: volatile fields, atomics, synchronized sets and the concurrent queues are modelled as plain sequential state. Interleavings with other threads (`enqueue`, `observe`, the idler setting `idling`) are not modelled.
- `idling` is set by the idler, outside this class. The model takes it as part of the state and never sets it to true itself.
- Collaborators (`Idler`, `FolderObserver`, `CommandCompletion`) are opaque. Their calls are the event log, and the completion's answer is the `accepts` parameter. Exceptions thrown by the collaborators themselves are not modelled.
- The observer receives the diff's sets as values, not as the live synchronized sets.
- Connection.AwaitLogin: the ten-second wait is modelled as "permits remain, so it times out". The interrupted wait (`InterruptedException`) is not modelled.
- Unicode case folding: `toLowerCase` and `equalsIgnoreCase` are modelled on ASCII letters only, which is the range the regular expressions' `CASE_INSENSITIVE` flag covers. `toLowerCase()` (`MailClientHandler.java:138`) also depends on the default locale: under a Turkish locale `IDLE` becomes `ıdle`, which the IDLE-terminated pattern then no longer matches. The model assumes a locale whose lower-casing of ASCII letters is the ASCII one.
- `Error.expected()` (`MailClientHandler.java:302-304`) only formats a completion for display and is not modelled.
- Connection.Run continues with the next line after a faulted one, which is what Netty does after the exception reaches `exceptionCaught`. The disconnect that `exceptionCaught` may then cause is the separate operation `Connection.ExceptionCaught`.
- Connection.Idle: its own postcondition states only that the trace is untouched. The outcome of each branch is stated by the `Properties.Idle*` lemmas, and the history rules by `Properties.IdleEvolves`.
- Connection.Login: its own postcondition states what every branch keeps. The outcome of each branch is stated by `Properties.LoginAccepted`, `Properties.LoginRejected` and `Properties.LoginIgnores`.
- Connection.Receive: its own postcondition states only the trace update. The outcome of each branch is stated by the `Properties.Receive*` lemmas, the invariant by `Properties.ReceiveKeepsInvariant`, and the history by `Properties.ReceiveEvolves`.
