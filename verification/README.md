# Verified model of the scheduled remote shell

This project models the parts of the UNIX shell clone that carry its difficult
behaviour, and proves what they promise over every input and every run:

- the task scheduler (`src/scheduler.c`) with the two executors it was written
  for (`execute_program_task` in `src/server.c`, `fake_executor` in
  `src/scheduler_test.c`);
- the command-line parser (`src/parser.c`);
- the descriptor wiring of pipelines (`src/pipes.c`);
- the byte stream between client and server (`src/client.c`, `src/server.c`).

`dafny verify dfyconfig.toml` checks everything. Inductions are written out: lemmas
over recursive definitions carry `{:induction false}`.

## How it is built

**Scheduler.** `Tasks.dfy` holds the task record. `Selection.dfy` states the
selection policy without the scan that implements it. `SchedulerCore.dfy` gives
each region of `scheduler.c` that runs under the mutex as one function on a
value. `SchedulerClass.dfy` is the scheduler object itself, with records linked
through `next` and spliced in place; its four locked regions `SubmitTask`,
`BeginPass`, `FinishRound` and `DetachClientTasks` are proved equal to `Submit`,
`Pass`, `Finish` and `Detach` of `SchedulerCore`, and say besides, in terms of the
records alone, what they leave behind. `Executor.dfy` is a scheduled round as a phase
machine, cut wherever another thread may act; the contract of a round, which names
every way it can end and what it then reports; and the imperative executor, proved
to do both. `TestExecutor.dfy` is the harness executor.
`System.dfy` composes them into a transition system: any interleaving of
submissions, cancellations, cleanups, a stop request, spurious wake-ups, turns of
the scheduler thread, executor phases and returns. A history that nothing reads
records the dispatches. `Invariants.dfy`, `Policy.dfy` and `Accounting.dfy` prove
that every step keeps the invariants; `Theorems.dfy` and `Liveness.dfy` say what
they mean for every reachable state and every run, `Shutdown.dfy` and `Replies.dfy`
which tasks are served, answered and charged. `Submissions.dfy` ties every record to
the submission it came from, `Endings.dfy` says which tasks end finished and which
cancelled. `SchedulerThread.dfy` puts the object
and the executor together: one pass of the thread's loop.

**Parser.** `Tokenizer.dfy` has the quoting automaton as a function, a grammar of
quoted words that is independent of it, and the proof that the two agree in both
directions. `Parser.dfy` has segments, outcomes and the verdict on a line;
`Verdicts.dfy` says from the words of a line, without the functions that compute it,
which verdict and how many complaints it is due.
`Printer.dfy` and `RoundTrip.dfy` write pipelines down in any spelling and read
them back. `OpenQuotes.dfy` treats unmatched quotes, `Lines.dfy` has single lines
that surprise. `LineParser.dfy` is the parser as it works: a character buffer with
terminators written into it, a 4096-byte token buffer, a 100-place argument array;
its methods are proved equal to the functions.

**Pipes and framing.** `Pipes.dfy` has one descriptor table per process and the
loop of `execute_pipeline` over them. `Framing.dfy` has the packets, the commands
and the loops that move them through partial sends and receives.

## What the code does not promise

These are properties a reader might expect. Each is false of the code; the model
keeps the code as it is, gives an input at which it fails, and states exactly when
it holds.

- *Every finished program is answered.* Over every step of every reachable state
  the one that leaves a finished program without an answer is the poll that finds
  a preempt request with nothing remaining, no cancellation, a drain that succeeds
  and none that failed before (`src/server.c:1075-1102`, then
  `src/scheduler.c:308-309`): `Replies.FinishedIsAnswered`. So over every run the
  finished programs without an answer are exactly those that took that step:
  `Replies.FinishedAreAnswered`; a run that takes it is
  `Replies.SomeFinishedProgramsAreNotAnswered`.
- *Every submitted task is served.* In runs that leave the thread nothing to do, a
  task was dispatched, detached or cleaned up exactly when it was submitted before
  the thread exited or was withdrawn; one that was not withdrawn was dispatched
  exactly when it was submitted in time: `Shutdown.ServedExactlyWhen`. It fails in
  `Shutdown.SomeTasksAreStranded`. Coming in time does not bound the wait either:
  `Shutdown.ShellsCanStarveAProgram`.
- *Every round charges the task.* A program's round charges nothing exactly when its
  child does not start or resume (`src/server.c:968-989`), or a cancellation is seen
  before its first second (`src/server.c:1008-1018`), or the drain of that second
  fails (`src/server.c:1024-1038`): `Replies.RoundIsFreeExactlyWhen`, with runs in
  `Replies.SomeUnstartedRoundsAreFree`, `Replies.SomeCancelledRoundsAreFree` and
  `Replies.SomeRoundsStall`. Of the three only the failing drain sends the task back
  to the queue uncharged: `Replies.RoundStallsExactlyWhen`. So dispatches are bounded
  by the work submitted whenever drains succeed: `Replies.DispatchesWithoutFailures`.
- *An unmatched quote is an error.* The tokenizer complains on its error output and
  ends the words there (`src/parser.c:173-176`); the segment is accepted exactly
  when the words in front of the quote are a command: `OpenQuotes.OpenQuoteVerdict`,
  and such a line is `Lines.OpenQuoteIsAccepted`.
- *A backslash protects a blank.* Not at the end of a segment, where trimming comes
  first: `Printer.SegmentReadsBack` is the exact condition, `Lines.EscapedBlankIsLost`
  a line.
- *Quotes protect `|`, `<`, `>` and `2>`.* A bar splits inside quotes, and an
  operator is recognised after unquoting: `Lines.QuotedBarSplits`,
  `Lines.QuotedOperatorRedirects`. `RoundTrip.ExpressibleIsPrintable` says exactly
  which pipelines a line can express.
- *An empty command is an empty command.* On the wire it looks like a disconnect,
  and a command that fills the buffer leaves its end in the stream:
  `Framing.HearUndoesSend` is the exact condition, `Framing.SomeCommandsAreMisheard`
  has such commands.
- *Wiring works whatever was open before.* For two stages or more it needs standard
  input and output, and standard error when a stage redirects it, and no more:
  `Pipes.WiredExactlyWhen`; tables at which it fails are in `Pipes.SomeShellsMiswire`.

## Model

| member | source | states |
|---|---|---|
| `SchedulerCore.ConfigureHonoursRequests` | src/scheduler.c:347-358 | each positive field requested is kept, every other one is that of the defaults 3, 7 and 5; a request is kept whole exactly when all of it is positive |
| `SchedulerCore.SubmitNumbered` | src/scheduler.c:494-527 | a submission keeps every id held once, and arrival numbers in step with ids |
| `SchedulerCore.PassNumbered` | src/scheduler.c:250-283 | a turn of the thread keeps the numbering: taking a task out of the queue loses and duplicates nothing |
| `SchedulerCore.FinishNumbered` | src/scheduler.c:289-312 | so does the return from a round, whether the task goes back or leaves |
| `SchedulerCore.DetachNumbered` | src/scheduler.c:545-582 | so does a cancellation |
| `Selection.ShortestIsMinimal` | src/scheduler.c:94-115 | the scan finds nothing exactly when no program is eligible, else the minimal one by remaining burst and arrival |
| `Selection.ScanStepKeepsTwoMinima` | src/scheduler.c:95-111 | one loop turn keeps the pair equal to the first and second minimum of the part scanned |
| `Selection.TwoMinimaRule` | src/scheduler.c:117-131 | the two-candidate rule chooses the shortest program other than the last one selected, or that one when it is the only program |
| `Selection.RepeatOnlyWhenAlone` | src/scheduler.c:122-127 | a program selected twice running was the only task waiting |
| `Selection.ChoiceIgnoresListOrder` | src/scheduler.c:86-131 | the program chosen depends on the set of waiting tasks only |
| `SchedulerClass.Scheduler.constructor` | src/scheduler.c:326-369 | an initialised scheduler is the initial core: empty queue, first id 1, nothing selected |
| `SchedulerClass.Scheduler.Enqueue` | src/scheduler.c:63-74 | the linked queue is the old one with the record appended, head and tail correct |
| `SchedulerClass.Scheduler.Unlink` | src/scheduler.c:133-143 | the splice leaves the same records in order minus the one, with head and tail correct and its link cleared |
| `SchedulerClass.Scheduler.ScanPrograms` | src/scheduler.c:87-115 | one pass finds the two minima of the programs and their predecessors |
| `SchedulerClass.Scheduler.ChooseShortestProgram` | src/scheduler.c:86-145 | returns and unlinks exactly the policy's program |
| `SchedulerClass.Scheduler.DequeueNext` | src/scheduler.c:159-184 | returns and unlinks exactly the policy's task: the first shell, else the program |
| `SchedulerClass.Scheduler.SubmitTask` | src/scheduler.c:494-527 | the record is queued last with the next id and arrival number; a positive estimate of a program stays, any other becomes the default, a shell's -1; counted and signalled once; the running program is flagged exactly when a shell or a shorter program comes |
| `SchedulerClass.Scheduler.BeginPass` | src/scheduler.c:250-283 | the locked turn equals the turn function: sleep, stop, find nothing or dispatch with the right quantum |
| `SchedulerClass.Scheduler.FinishRound` | src/scheduler.c:289-314 | uncancelled work with burst left that asks for a requeue goes to the tail with its burst, one round more and a wake-up token; anything else is cleaned up once, cancelled when it was cancelled, gave up or failed with burst left, else finished |
| `SchedulerClass.Scheduler.DetachClientTasks` | src/scheduler.c:545-582 | the in-place removal leaves exactly the other clients' records in order, and the removed ones on the free list once each |
| `SchedulerClass.Scheduler.CleanUpDetached` | src/scheduler.c:584-595 | every detached record is cleaned up once, marked cancelled |
| `SchedulerClass.Scheduler.CancelClientTasks` | src/scheduler.c:535-598 | the client's queued records are handed to the cleanup as cancelled, latest first; its running one is flagged on both counts; the number returned counts both |
| `SchedulerClass.Scheduler.PollsAfterSubmission` | src/scheduler.c:519-618 | the polls of the running record after a submission: preempt exactly when it was asked before or a shell or shorter program interrupts a program, cancel exactly as before |
| `SchedulerClass.Scheduler.PollsAfterCancellation` | src/scheduler.c:575-639 | after a client cancels, both polls of the running record say so exactly when it is the client's or it was asked before |
| `SchedulerClass.Scheduler.PollsAfterDispatch` | src/scheduler.c:273-276 | right after a dispatch no poll asks to yield, and none but the dispatched record's can ask to stop |
| `SchedulerThread.PollsAreTheFlags` | src/scheduler.c:605-639 | the two polls hand a round exactly the flags that the transition system hands it |
| `SchedulerThread.ChargingKeepsNumbers` | src/server.c:1041-1043 | charging time units keeps the numbering, so the object stays valid across a round |
| `SchedulerThread.RunPass` | src/scheduler.c:245-315 | one pass of the thread's loop on the linked queue and the executor keeps the object valid and computes turn, round and return |
| `SchedulerClass.Scheduler.WaitingCount` | src/scheduler.c:646-663 | counts the queue by walking it |
| `SchedulerClass.ChainHasNoRepeats` | src/scheduler.c:63-74 | a null-terminated chain visits no record twice |
| `Executor.AdvanceKeepsSound` | src/server.c:962-1167 | every phase of a round keeps it sound: the child runs exactly while the round is under way, time units stay within the quantum |
| `Executor.RunRoundIsSound` | src/server.c:962-1167 | so a whole round ends in a report with its child stopped or gone, on every path |
| `Executor.RoundContract` | src/server.c:962-1167 | whatever child, drains and flags do, a round ends for exactly one cause after exactly one number of time units: not started, cancelled, drain failed, child found gone at whatever burst, asked to yield, quantum used, burst used; and it has that cause's result, remaining burst, child and reply |
| `Executor.EndsOnce` | src/server.c:962-1167 | no round meets two of those causes, nor one of them twice |
| `Executor.ExecuteProgramTask` | src/server.c:962-1167 | the loop over time units keeps that contract, and computes what the phase machine computes |
| `Executor.RunTimeUnit` | src/server.c:1005-1104 | one iteration ends the round for one of the causes that can end it there, or has charged one time unit and nothing else |
| `TestExecutor.FakeExecutor` | src/scheduler_test.c:53-89 | keeps the executor contract, and agrees with a server round whose drains succeed and whose child exits on time |
| `TestExecutor.ContractDetermines` | src/scheduler_test.c:65-88 | the contract fixes the result and the burst left over: nothing is left to choose |
| `TestExecutor.PunctualUnit` | src/server.c:1005-1104 | what a time unit of the server executor does when its child is punctual |
| `Invariants.ConservedStep` | src/scheduler.c:221-234 | every step keeps each issued id in exactly one place and every other id nowhere |
| `Invariants.AccountedStep` | src/scheduler.c:252-271 | every step keeps the active count exact and the wake-up tokens at least the queue's length |
| `Invariants.RoundSoundStep` | src/scheduler.c:285-304 | every step of any thread keeps the running round sound |
| `Policy.ShellsInOrderStep` | src/scheduler.c:292-303 | programs requeued at the tail never disturb the arrival order of the queued shells |
| `Policy.ChoiceIsDeserved` | src/scheduler.c:159-184 | what is dispatched is the oldest shell, or with no shell a program no eligible one is shorter than |
| `Policy.TurnFollowsThePolicy` | src/scheduler.c:250-283 | a turn sleeps exactly with no token and no finished shutdown, exits exactly in a finished shutdown, and else dispatches what the policy names, in its first round for the first quantum and later for the later one |
| `Policy.DeservedIsUnique` | src/scheduler.c:86-184 | that description fits one task only |
| `Policy.NearShortestStep` | src/scheduler.c:514-522 | every step keeps the near-shortest-first invariant |
| `Accounting.WithinBudgetStep` | src/scheduler.c:242-318 | every step keeps dispatches made and still possible within the work submitted plus stalled rounds |
| `Accounting.LedgeredStep` | src/server.c:1005-1133 | every step keeps each program's charged time units in step with its rounds |
| `Theorems.InvStep` | src/scheduler.c:242-598 | every step of every thread keeps the whole invariant |
| `Theorems.ReachableInv` | src/scheduler.c:242-598 | so it holds in every reachable state |
| `Theorems.EveryTaskInOnePlace` | src/scheduler.c:221-234 | every submitted task is in exactly one of queue, CPU, free list, cleaned up |
| `Theorems.CleanedUpOnce` | src/scheduler.c:584-595 | cleanup runs at most once per task and never for one still held |
| `Theorems.FlagsNeverWait` | src/scheduler.c:292-297 | queued tasks carry no flag, and whatever is dispatched is uncancelled with work left |
| `Theorems.NearShortestFirst` | src/scheduler.c:196-214 | while a program runs unflagged no shell waits, and no waiting program is shorter but perhaps the one dispatched just before |
| `Theorems.NoWastedPreemption` | src/scheduler.c:122-127 | over every run, the same task is dispatched twice running only when nothing else waited |
| `Theorems.ShellsFirstComeFirstServed` | src/scheduler.c:159-181 | shells are dispatched in submission order, once each, before any program that waits with them |
| `Theorems.ShortestWaitsAtMostOneRound` | src/scheduler.c:117-127 | the shortest waiting program is dispatched now or next, however short the task between becomes |
| `Theorems.SleepsOnlyWhenIdle` | src/scheduler.c:252-271 | no wake-up is lost: the thread sleeps only when nothing is queued or running and no stop is requested |
| `Theorems.ExitsOnlyWhenDone` | src/scheduler.c:262-265 | the thread exits only after a stop request with every submitted task detached or cleaned up |
| `Theorems.DispatchesAreBounded` | src/scheduler.c:242-318 | dispatches are at most the shells and program bursts submitted plus the rounds that went back to the queue with nothing charged |
| `Replies.RoundIsFreeExactlyWhen` | src/server.c:968-1038 | over every step of every reachable state and whatever is reported, a program's round comes to charge nothing if and only if its child does not start or resume, a cancellation precedes its first second, or the drain of that second fails |
| `Replies.RoundStallsExactlyWhen` | src/server.c:1024-1038 | and it comes to ask for a requeue with nothing charged if and only if that drain fails |
| `Replies.DispatchesWithoutFailures` | src/scheduler.c:242-318 | rounds requeued with nothing charged imply a failed drain, so in every run whose drains succeed dispatches are at most the shells and program bursts submitted |
| `Replies.SomeRoundsStall` | src/server.c:1024-1038 | a run in which a program goes back to the queue with its whole burst after a failed drain |
| `Replies.SomeCancelledRoundsAreFree` | src/server.c:1008-1018 | a run without a failed drain in which a cancelled round charges nothing |
| `Replies.SomeUnstartedRoundsAreFree` | src/server.c:975-982 | a run without a failed drain in which a round charges nothing because its child does not start |
| `Theorems.RoundBound` | src/scheduler.c:278-304 | a program is dispatched at most 1 + ceil(max(0, b - q1) / q2) times plus once per round cut short, when q1 <= q2 |
| `Theorems.RoundCountExact` | src/scheduler.c:278-304 | and exactly that often when no round was cut short and the child did not exit with burst left |
| `Theorems.SingleSimulatedCpu` | src/server.c:736-823 | at most one child is running, it belongs to the running task, and none is left running by a report |
| `Liveness.PotentialStep` | src/scheduler.c:242-318 | every step of the scheduler thread uses up potential that only outside events add |
| `Liveness.ThreadStepsArePaidFor` | src/scheduler.c:242-318 | over any run the thread's steps are at most the potential it began with plus what outside events added |
| `Liveness.QuiescentMeansDone` | src/scheduler.c:252-265 | a thread with no step left has exited, or sleeps with nothing held and no stop requested |
| `Liveness.StopLeadsToExit` | src/scheduler.c:393-402 | from every state reached after a stop request some run of the thread by itself reaches its exit with nothing queued or running left |
| `Liveness.RunsQuiesce` | src/scheduler.c:242-318 | from every reachable state, the thread's steps in any run are at most its potential plus what outside events add |
| `Shutdown.EveryStoppedRunExits` | src/scheduler.c:393-402 | every run of a stopped thread by itself with succeeding drains is bounded by the potential, and ends only in the exit with nothing queued or running |
| `Shutdown.ServedExactlyWhen` | src/scheduler.c:252-265 | over every run that leaves the thread nothing to do, a task was dispatched, detached or cleaned up if and only if it was submitted before the exit or withdrawn; one not withdrawn was dispatched if and only if it was submitted before the exit |
| `Endings.ReturnsOrEnds` | src/scheduler.c:289-312 | in every reachable state with a report, exactly a requeue with burst left and no cancellation puts the task back, whole; every other report cleans it up as cancelled or as finished |
| `Endings.CancelledExactlyWhen` | src/scheduler.c:289-312 | over every run, of the tasks cleaned up exactly those are cancelled that their client cancelled or whose child did not start or resume; all others are finished, programs with no burst left |
| `Endings.FinishedExactlyWhen` | src/scheduler.c:242-318 | over every run that leaves the thread nothing to do, a task has finished if and only if it was submitted before the exit and not given up in one of those two ways |
| `Submissions.RecordsAreAsAsked` | src/scheduler.c:500-510 | over every run, every record held, let go of or dispatched has kind, client and estimate of the submission that was given its id; estimates that are not positive became the default |
| `Submissions.FirstDispatchHasWholeBurst` | src/scheduler.c:504-510 | and a program's first dispatch finds the whole burst asked for ahead of it |
| `Shutdown.SomeTasksAreStranded` | src/scheduler.c:262-265 | a run in which a task submitted after the exit is never served |
| `Shutdown.ShellsCanStarveAProgram` | src/scheduler.c:159-181 | for every n a run with n shell dispatches in which the first program submitted has had none |
| `Liveness.ExitIsFinal` | src/scheduler.c:262-265 | after the exit nothing is dispatched, and what is queued stays until it is cancelled |
| `Replies.FinishedIsAnswered` | src/server.c:1041-1102 | over every step of every reachable state, a finished program comes to be unanswered if and only if the poll behind its last time unit finds a preempt request, no cancellation and a drain that succeeds, none having failed before |
| `Replies.FinishedAreAnswered` | src/server.c:1041-1102 | over every run from the start, a program that has finished is without an answer if and only if it took that poll somewhere in the run |
| `Replies.SomeFinishedProgramsAreNotAnswered` | src/server.c:1075-1102 | a run in which a program finishes without an answer |
| `Tokenizer.Scan` | src/parser.c:101-169 | the automaton never writes more characters than it has read, and reads no further than the line |
| `Tokenizer.ScanIsTheGrammar` | src/parser.c:101-169 | the scan accepts a prefix with a value if and only if that prefix is a word of the quoting grammar with that value |
| `Tokenizer.ScansWord` | src/parser.c:101-169 | every word of the grammar is read to its value and no further |
| `Tokenizer.WordOf` | src/parser.c:101-169 | whatever is accepted is spelled by some word of the grammar |
| `Tokenizer.NextReadsWord` | src/parser.c:81-181 | behind any blanks the next token is the word's value, and the input stops right behind the word |
| `Tokenizer.NextUndoesQuoting` | src/parser.c:81-181 | tokenizing undoes the single-quote and the double-quote printer for every string |
| `Tokenizer.ScanAddsNothing` | src/parser.c:145-158 | the only characters written that need not have been read are newline and backslash |
| `Verdicts.SegmentMerits` | src/parser.c:252-413 | every segment: words that break off at an operator are rejected for that operator's file; arguments make a command; redirections alone are deferred, except in the last segment; anything else is no command, with the message of its position |
| `Verdicts.MeritsOne` | src/parser.c:252-413 | and no words merit two outcomes |
| `Verdicts.VerdictOnEveryLine` | src/parser.c:224-429 | a verdict is the parser's if and only if the line is due it: nothing for a blank line, else one command per segment, or the leftmost hard error, or the deferred one, by what the words of its segments merit |
| `Verdicts.ComplaintsOnEveryLine` | src/parser.c:173-176 | a blank line draws no complaint, any other as many as it has segments, up to the first error, whose words are all read and end at an open quote |
| `Parser.ParseReports` | src/parser.c:224-429 | the parser reports what the outcomes of all segments call for; an accepted line has one command more than bars, each with an argument |
| `Parser.WalkReports` | src/parser.c:247-425 | the loop with its deferred flag reports what the outcomes of all segments call for |
| `Parser.SplitTrimmed` | src/parser.c:224-247 | trimming the line first only trims its last segment |
| `Parser.TrimAfterTrimRight` | src/parser.c:23-42 | trimming a segment is not affected by the earlier trim of the line |
| `Parser.SplitCountsBars` | src/parser.c:247-247 | there is one segment more than there are bars |
| `Printer.FillIsTheGrammar` | src/parser.c:310-370 | words make a command if and only if they spell arguments and redirections with proper file names, the last redirection of a kind winning |
| `Printer.PartsOf` | src/parser.c:310-370 | otherwise they break off at an operator without a file name, and that operator is reported |
| `Printer.TokensBehind` | src/parser.c:309-309 | spelled words are read one by one, and reading goes on behind them |
| `Printer.SegmentReadsBack` | src/parser.c:23-42 | a segment's words survive trimming if and only if the last one does not end in an escaped blank |
| `Printer.OpenQuoteEndsTheWords` | src/parser.c:173-176 | an unmatched quote ends the words in front of it, which stay |
| `OpenQuotes.OpenQuoteVerdict` | src/parser.c:173-176 | a segment with an unmatched quote is accepted if and only if the words in front of it are a command, as that command and with the complaint printed |
| `OpenQuotes.FilledComplains` | src/parser.c:173-176 | a segment with no file name missing is complained about if and only if its words end at an open quote |
| `Lines.Separators` | src/parser.c:87-111 | space and tab separate words, and no other character does |
| `Lines.BlankCharacters` | src/parser.c:26-37 | the same two characters are trimmed, and make a blank line |
| `Lines.Escapes` | src/parser.c:101-169 | what a backslash makes of each character, outside quotes and inside double ones, and that single quotes protect all but themselves |
| `Lines.OperatorsByName` | src/parser.c:310-358 | which operator names which file, and that each reports its own when it is missing |
| `Lines.LaterFileCounts` | src/parser.c:328-344 | a second redirection of the same kind replaces the first |
| `Lines.EscapedBlankIsLost` | src/parser.c:23-42 | a line whose escaped blank at the end is not part of the word |
| `Lines.QuotedBarSplits` | src/parser.c:247-247 | a line with a bar in quotes that is cut there and rejected |
| `Lines.QuotedOperatorRedirects` | src/parser.c:310-327 | a line with a quoted operator that is rejected for its missing file |
| `Printer.ParseReadsPipeline` | src/parser.c:203-430 | a pipeline written in any quoting, spacing and order of redirections parses to that pipeline |
| `RoundTrip.ParseUndoesPrint` | src/parser.c:203-430 | parsing undoes the canonical printer for every printable pipeline |
| `RoundTrip.AcceptedIsPrintable` | src/parser.c:203-430 | whatever is accepted is printable: no operator and no bar is ever a word |
| `RoundTrip.ExpressibleIsPrintable` | src/parser.c:203-430 | some line expresses a pipeline if and only if it is printable |
| `RoundTrip.PrintedFits` | src/parser.c:14-14 | printed pipelines with at most 99 arguments and words under 4096 characters fit the fixed buffers |
| `Lines.OpenQuoteIsAccepted` | src/parser.c:173-176 | a line with an open quote that is accepted without its end, after one complaint |
| `LineParser.TrimWhitespace` | src/parser.c:23-42 | the in-place trim leaves the trimmed string behind the returned pointer and the rest of the buffer unchanged |
| `LineParser.NextToken` | src/parser.c:81-181 | the buffer holds the next word with its terminator and the input stands behind it; or, with the complaint made, where it was exactly when a quote is open |
| `LineParser.ScanCharacter` | src/parser.c:106-167 | one turn of the automaton in place: next state, character written, characters read |
| `LineParser.StrSep` | src/parser.c:247-247 | cuts the string at its first bar and returns what is behind it |
| `LineParser.ParseSegment` | src/parser.c:308-374 | the token loop computes the command or the missing file of the segment, and whether it complained |
| `LineParser.ParseLine` | src/parser.c:203-430 | the whole in-place parser returns the verdict the line is due and makes as many complaints as the line calls for |
| `Pipes.ExecutePipeline` | src/pipes.c:25-210 | whatever was open, each child executes with its actual table exactly when every file its command names opens, and exits exactly when one does not; when the streams suffice, that table has at 0, 1 and 2 the command's files, else the neighbouring pipes, else the shell's streams, and elsewhere is the shell's; the parent ends with the table it began with |
| `Pipes.RunStage` | src/pipes.c:49-198 | after stage i the parent holds its own table and the read end of pipe i, nothing else |
| `Pipes.RunChild` | src/pipes.c:71-176 | between fork and exec the child's table becomes the shell's with three streams replaced; it executes exactly when every file named opens |
| `Pipes.WiredExactlyWhen` | src/pipes.c:49-198 | every stage gets its intended table if and only if the streams suffice: input and output open, and error when a stage redirects it |
| `Pipes.StageIsRight` | src/pipes.c:82-159 | then pipe ends first, redirections over them and leftovers closed give each stage exactly its table |
| `Pipes.Alone` | src/pipes.c:107-147 | a command that stands alone gets its intended table if and only if no stream it redirects is the lowest descriptor free |
| `Pipes.PipeEndsAreNotLeaked` | src/pipes.c:153-190 | a pipe's write end is held by its stage alone, its read end by the next stage alone, each unless redirected |
| `Pipes.WriteEndsAreNeverInherited` | src/pipes.c:184-197 | no other stage holds a write end even between fork and exec |
| `Pipes.ClosedStdinLosesThePipe` | src/pipes.c:82-155 | without an open standard input the second stage executes without any, whatever it redirects |
| `Pipes.ClosedStdoutLosesThePipe` | src/pipes.c:86-159 | without an open standard output the first stage executes without any |
| `Pipes.ClosedStderrLosesItsFile` | src/pipes.c:135-159 | without an open standard error a stage that redirects it executes without any |
| `Pipes.SomeShellsMiswire` | src/pipes.c:49-198 | tables at which two plain stages are wired wrongly, and one without standard error at which they are not |
| `Framing.Decode32UndoesEncode32` | src/server.c:851-852 | the header words survive network byte order |
| `Framing.DecodeUndoesEncode` | src/server.c:850-867 | a packet is recovered, with the stream left behind it, if and only if its length fits 32 bits |
| `Framing.DecodesOnlyEncodings` | src/client.c:137-157 | a packet is read from a stream if and only if its encoding stands at the front |
| `Framing.HeadersSortLikeNumbers` | src/server.c:851-852 | header words are in network byte order: as byte strings they sort like the numbers |
| `Framing.ReceivedExactlyWhen` | src/client.c:115-176 | a response is received from a stream, whole or broken off, if and only if a whole reply stands at its front |
| `Framing.DisplayEndsItsLine` | src/client.c:159-168 | progress output is shown whole, and ends in a newline, one being added exactly when there is none |
| `Framing.AResponseOnTheWire` | src/client.c:137-175 | a response byte by byte, with what the client makes of it |
| `Framing.ReceiveUndoesReply` | src/client.c:115-176 | progress output and final packet are recovered and the stream stops at the reply's end |
| `Framing.SessionRoundTrip` | src/client.c:249-306 | any sequence of replies comes out in order, each with the progress output shown before its final packet, and with nothing left over |
| `Framing.HearUndoesSend` | src/server.c:103-129 | a command is heard as sent if and only if its length is between 1 and the buffer's size minus 2 |
| `Framing.HearsUpToTheNul` | src/server.c:103-129 | on any stream: the bytes before the first NUL if it comes in time, a full buffer if none does, a closed connection if the stream ends first |
| `Framing.SomeCommandsAreMisheard` | src/server.c:103-129 | the empty command counts like a closed connection, and one of 1023 bytes leaves its terminator behind |
| `Framing.CommandsRoundTrip` | src/server.c:103-129 | so is any sequence of such commands |
| `Framing.Socket.SendAll` | src/client.c:60-74 | all bytes go out in order however few each call accepts |
| `Framing.Socket.RecvAll` | src/client.c:83-100 | exactly the bytes asked for arrive, however they are chunked |
| `Framing.Socket.SendAllPatiently` | src/server.c:81-97 | interruptions are tried again: all bytes go out if and only if no call fails, else a proper prefix of them |
| `Framing.Socket.SendResponse` | src/server.c:850-867 | the encoded packet goes out if and only if no call fails, else a proper prefix of it |
| `Framing.Socket.ReceiveResponse` | src/client.c:115-176 | the loop computes the receive function and succeeds exactly when a whole response is there |
| `Framing.Socket.RecvCommand` | src/server.c:103-129 | the byte-by-byte loop returns -1 if and only if a call fails or there is no buffer, tries interruptions again, and otherwise computes the command, the count and the stream left |

## Left out

- Threads, mutexes and condition variables: a locked region is one atomic step,
  `pthread_cond_wait` a step that may also wake spuriously; the memory model is not part of this model.
- Time, signals and process outcomes: whether a child starts, resumes or exits and
  whether a drain succeeds are inputs of each executor phase.
- Logging, colours, prompts, the timeline and `print_summary_if_needed`: display only.
- The accept loop, `task_context_create`/`release`, reference counts and
  `wait_for_task`: the model stops at the flag that releases the waiting client.
- Allocation failure, failing `pipe()` and `fork()`, and NULL arguments: assumed not to happen.
- Wrap-around of ids, counters and bursts: integers are unbounded.
- `scheduler_start`, `scheduler_join`, `scheduler_destroy`: they add no step to the state machine.
- `execute_shell_task`: its allocation failures are left out, so a shell round always completes.
- `build_demo_argv`, `split_command_argv`, `task_context_append`, growing buffers: routine.
- Freeing: `free_commands` and the `strdup` copies have no counterpart; words are values.
- SchedulerClass.TaskNode: the C struct's data fields are one record value, so updates of
  single fields are updates of that record; the link is a field of its own.
- SchedulerClass.Scheduler.CancelClientTasks: the unlocked cleanup is part of the method; in the
  transition system each cleanup is a step of its own that others interleave with.
- LineParser.ParseLine: requires what the source leaves unchecked, that words fit the token buffer
  and arguments the argument array, for the segments it looks at.
- Pipes.ExecutePipeline: `execvp`, `waitpid` and the early return for an empty pipeline are left
  out; descriptors are handed out lowest first, as POSIX requires.
- Framing.Socket.SendAll: the client takes an interruption for a failure, so success is stated
  for calls that all move something.
- Interruptions of a connection are finitely many, since the server's loops retry them without end.
- Unicode and locales: characters are opaque, and the characters of a line are all but NUL.
