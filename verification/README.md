# The runtime core of open-coroutine

A model in Dafny of the single-threaded runtime core of a stackful-coroutine library, with proofs
about all of its runs. `dafny verify dfyconfig.toml` checks everything.

- `constants.dfy`, `coroutine.dfy`: the state enumerations and the state machine of a coroutine.
- `scheduler_model.dfy`: the scheduler as a transition system over a ready queue, a timer list of
  suspended coroutines, a syscall map and a timer list of syscall deadlines in which stale names may
  remain. `scheduler_invariant.dfy`, `scheduler_runs.dfy`, `scheduler_theorems.dfy`,
  `scheduler_lifecycle.dfy`: what all runs keep. `scheduler_early_wake.dfy`,
  `scheduler_failures.dfy`: runs in which an obvious claim fails. `scheduler.dfy`: the
  scheduler as a class whose loop performs such a run. `scheduler_queue.dfy`: its runs as runs of the
  work-stealing queue, with the order and the bounded wait that follow.
- `work_steal.dfy`, `timer.dfy`, `rand.dfy`: the work-stealing queue, the timer list and the random
  generator, as classes refining functions on values. `work_steal_order.dfy`: the order in which items
  leave the queue.
- `syscall_protocol.dfy`: the state protocol of a hooked system call across hook, event loop and scheduler.
  `scheduler_protocol.dfy`, `scheduler_reports.dfy`: the same protocol inside runs of the scheduler, and what
  its listeners are told. `syscall_stack.dfy`: the stack of current system calls under several coroutines.
- `current_stacks.dfy`: the thread-local stacks of current coroutines, suspenders and timestamps under
  nested resumes.
- `pool_model.dfy`, `pool_theorems.dfy`, `pool_shutdown.dfy`, `pool.dfy`: workers, tasks, results and
  shutdown of the coroutine pool. `pool_in_scheduler.dfy`: its workers as coroutines of the scheduler.
  `wait_result.dfy`: a waiter against the producer of its result.
- `nio.dfy`, `poll.dfy`, `round_robin.dfy`: the retry loops of hooked reads and writes, the backoff of
  `poll`, and the choice of event loops.

How the model reads the code:

- The body of a coroutine is an oracle: on each resume it performs hook transitions, submissions and
  wake-ups, and then yields, returns or panics. Listeners told about the end of a stretch may submit and
  wake as well; what they do on creation and resumption is not modelled.
- A coroutine is its name; its state cell lives in a map. Names are unique, as UUIDs are.
- `now()` is a nondecreasing reading, one per call in the code. The code reads a wall clock, which may
  step back; the statements about timeliness assume that it does not.
- Kernel replies, schedules and task behaviour are finite scripts, quantified over. Where the source
  loops until something outside happens, the method says what holds when the script runs out.
- `Injector` and `st3` queues are FIFO sequences and operations on them are atomic; the capacity of a
  local queue is at least 1.

Where the obvious claim fails, the failure is a lemma and the exact condition is proved:

- A timeout can be delivered before the deadline, because `try_resume` leaves the old deadline entry
  filed (`EarlyWakeUp`); it happens exactly when such an entry is due (`EarlyIffStale`).
- `size()` does not count what spilled to the shared queue (`SizeFallsShort`; exactly then,
  `SizeIsExactUnlessSpilled`).
- A body that finishes inside a system call makes `resume_with` fail, leaves the coroutine on the
  COROUTINE stack (`StaysCurrent`; exactly then, `RestoredIff`) and drops it from the scheduler
  (`FinishedInsideCall`; exactly then, `ResumeKeeps`).
- A delay requested inside a system call leaves its timestamp behind for somebody else's plain suspend
  (`StrayTimestamp`; exactly then, `OwnStampsIff`).
- A timed `wait_just` outside a hooked call spoils the next hooked call (`UnhookedWaitBreaksNextCall`;
  the exact condition of entry is `EntryCondition`).
- Hooked calls of two coroutines on one thread can leave a call that is over on the stack of current calls
  (`CrossedCalls`); the stack holds the calls under way exactly as long as nobody leaves a call while a
  different one, entered later, is still under way (`CallsAgreeIff`).
- A worker that a task leaves inside a system call can make `stop` fail or never finish
  (`LeftInCallNeverStops`); the exact condition is `CanStopIff`. If it crashes there, the count of workers
  is wrong from then on (`MiscountIsReached`; exactly then, `WorkersCounted`).
- A submission from outside after `stop` has begun can be stranded (`WindowSubmissionIsStranded`,
  `StoppedSubmissionIsStranded`); exactly when there is no worker (`LateSubmissionServedIff`).
- The retry loops never transfer the rest of a partial read or write: a successful call clears errno and
  so ends the loop (`PartialTransferStops`; the exact condition is `WholeOnlyAtOnce`).
- `next_seed` can produce the absorbing seed (`NextSeedCanBeAbsorbed`); exactly from the states of
  `NextSeedAbsorbedIff`.
- The documentation of `LocalQueue::pop_front` says that the global queue is tried before the siblings;
  the code tries the siblings first, and the model follows the code (`SiblingBeforeShared`; the exact
  condition is `SharedBeforeSiblingsIff`).

## Model

| member | source | states |
|---|---|---|
| SchedulerTheorems.RunKeeps | open-coroutine-core/src/scheduler/mod.rs:139-193 | the scheduler invariant holds at every loop head of every run of submissions, wake-ups by name and scheduling turns, under a nondecreasing clock |
| SchedulerTheorems.MoveKeeps | open-coroutine-core/src/scheduler/mod.rs:285-378 | each single submission, wake-up or turn keeps the invariant |
| SchedulerTheorems.StartInv | open-coroutine-core/src/scheduler/mod.rs:125-137 | a new scheduler satisfies the invariant |
| SchedulerTheorems.ExactlyOnePlace | open-coroutine-core/src/scheduler/mod.rs:139-193 | conservation: a submitted coroutine is in exactly one of ready queues, suspend list under its own key, syscall map under its own name, finished (reported once), or dropped by a failed resume; a coroutine never submitted is nowhere |
| SchedulerTheorems.SizeIsExactUnlessSpilled | open-coroutine-core/src/scheduler/mod.rs:376-378 | `size()` never exceeds submitted minus finished minus dropped, and equals it if and only if nothing has spilled out of the own local queue |
| SchedulerTheorems.WokenIffDue | open-coroutine-core/src/scheduler/mod.rs:160-191 | `check_ready` takes a coroutine out of the syscall map if and only if some deadline entry naming it is due; it is then queued, in `Timeout` if it was suspended, and is otherwise left as it was |
| SchedulerTheorems.NoLostWakeUp | open-coroutine-core/src/scheduler/mod.rs:160-191 | no lost wake-up: whatever stale entries exist, a coroutine suspended until t has its name filed under t and a `check_ready` at clock t or later queues it in `Timeout` |
| SchedulerTheorems.TimeoutWasRegistered | open-coroutine-core/src/scheduler/mod.rs:343-350 | `Timeout` is delivered only at or after a deadline which that same coroutine registered |
| SchedulerTheorems.EarlyIffStale | open-coroutine-core/src/scheduler/mod.rs:160-191 | a wake-up before the current deadline happens if and only if a stale entry under an earlier key is due |
| SchedulerTheorems.PristineNeverEarly | open-coroutine-core/src/scheduler/mod.rs:160-191 | without stale entries, a coroutine is woken by `check_ready` if and only if its current deadline has come |
| SchedulerTheorems.RunPristine | open-coroutine-core/src/scheduler/mod.rs:301-313 | in every run in which nobody calls `try_resume` for a coroutine, its entries never become stale |
| SchedulerEarlyWake.EarlyWakeUp | open-coroutine-core/src/scheduler/mod.rs:301-313 | the trace that breaks "no timeout before the deadline": suspend until 10, `try_resume`, suspend until 100, and the clock at 50 delivers `Timeout` |
| SchedulerFailures.SizeFallsShort | open-coroutine-core/src/scheduler/mod.rs:376-378 | a run after which two coroutines are submitted, none is finished, and `size()` is 1 |
| SchedulerFailures.FinishedInsideCall | open-coroutine-core/src/scheduler/mod.rs:364-368 | a run in which a body returns inside a system call: the turn fails and the coroutine is dropped, in no container and reported to nobody |
| SchedulerRuns.CheckReadyKeeps | open-coroutine-core/src/scheduler/mod.rs:139-193 | `check_ready` keeps the invariant for all clock readings |
| SchedulerRuns.ResumePoint | open-coroutine-core/src/scheduler/mod.rs:327-333 | the coroutine that a turn pops is in no container any more and is `Ready`, `SystemCall`, or `Suspend` with a past timestamp; nothing is popped exactly when nothing is ready |
| SchedulerRuns.ResumeKeeps | open-coroutine-core/src/scheduler/mod.rs:332-370 | resuming a runnable coroutine keeps the invariant, and is an error exactly when its body finishes inside a system call; that coroutine is then dropped |
| SchedulerRuns.TurnKeeps | open-coroutine-core/src/scheduler/mod.rs:315-374 | a whole turn: idle exactly when nothing is ready, an error exactly when the resumed body finishes inside a system call, no other error path |
| SchedulerRuns.TryResumeKeeps | open-coroutine-core/src/scheduler/mod.rs:301-313 | `try_resume` keeps the invariant and touches no coroutine that is in hand |
| SchedulerLifecycle.RunLife | open-coroutine-core/src/scheduler/mod.rs:315-374 | in every run the callbacks about one coroutine follow a fixed automaton: created once, resumed only from rest, back from a system call in `Timeout` or `Computing` of the same call, reported complete or failed at most once and then never again |
| SchedulerLifecycle.StartLife | open-coroutine-core/src/scheduler/mod.rs:125-137 | the automaton starts in its initial state |
| Scheduler.SchedulerImpl.Submit | open-coroutine-core/src/scheduler/mod.rs:285-299 | creates, marks ready, reports and queues a fresh coroutine; the invariant holds again |
| Scheduler.SchedulerImpl.TryResume | open-coroutine-core/src/scheduler/mod.rs:301-313 | a waiting coroutine goes to the ready queue in `Computing`, any other name changes nothing; the `unreachable!` branch is dead |
| Scheduler.SchedulerImpl.WakeSuspended | open-coroutine-core/src/scheduler/mod.rs:140-158 | the first loop queues exactly the due coroutines in (timestamp, insertion) order; `ready()` never refuses |
| Scheduler.SchedulerImpl.WakeDeadlines | open-coroutine-core/src/scheduler/mod.rs:159-191 | the second loop expires exactly the due names, in order; its `unreachable!` is dead |
| Scheduler.SchedulerImpl.CheckBothLists | open-coroutine-core/src/scheduler/mod.rs:139-193 | `check_ready` as a whole: afterwards no key at or before its last clock readings remains in either list |
| Scheduler.SchedulerImpl.ResumeOne | open-coroutine-core/src/scheduler/mod.rs:332-370 | one resume and the filing of the coroutine by the state it came back in |
| Scheduler.SchedulerImpl.ChooseNext | open-coroutine-core/src/scheduler/mod.rs:323-331 | `check_ready` and the pop leave the chosen coroutine runnable and in hand, or nothing ready anywhere |
| Scheduler.SchedulerImpl.Iterate | open-coroutine-core/src/scheduler/mod.rs:317-372 | one iteration is one turn of the transition system, begun at a clock reading before the deadline; it ends with `Ok(0)`, changing nothing, exactly if its reading is at the deadline or past it, and otherwise the time left that it returns is counted from that reading |
| Scheduler.SchedulerImpl.TryTimeoutSchedule | open-coroutine-core/src/scheduler/mod.rs:315-374 | the loop performs a legal run of the transition system, turn i with the i-th body, each begun at a reading before the deadline; `Ok(0)` exactly if the last reading is at the deadline or past it, `Ok(left)` with the time left at the last reading exactly if the last turn finds nothing ready, every other turn resumes a coroutine and gets it back; an error only if the last turn resumed a body that finished inside a system call, and then exactly that coroutine is dropped; the script runs out only if all of it was performed |
| SchedulerQueue.RunIsQueueRun | open-coroutine-core/src/scheduler/mod.rs:315-374 | every run of the scheduler is a run of the work-stealing queue in which its worker pushes what becomes ready, in a stated order, and pops once a turn; whoever leaves the shared queue is reported as resumed |
| SchedulerQueue.NoStarvation | open-coroutine-core/src/scheduler/mod.rs:323-333 | a coroutine at depth k of the shared queue is resumed within 61(k+1) turns, whatever is submitted, woken or suspended meanwhile |
| SchedulerQueue.ResumedInOrder | open-coroutine-core/src/scheduler/mod.rs:323-333 | two turns that take their coroutines from the own queue, anywhere in a run, resume them in the order in which they were queued |
| SchedulerQueue.CheckReadyDid | open-coroutine-core/src/scheduler/mod.rs:139-193 | `check_ready` queues the due suspended coroutines in (timestamp, insertion) order, and after them the due names that wait in the syscall map, each once |
| SchedulerQueue.ResumeQueues | open-coroutine-core/src/scheduler/mod.rs:332-350 | a resume queues what the body submits and wakes, then what the listeners do, and the coroutine itself last, exactly if it yielded outside a call with a timestamp that has passed |
| SchedulerQueue.MoveRun | open-coroutine-core/src/scheduler/mod.rs:285-313 | each single submission, wake-up or turn is such a run of the queue |
| StateMachine.HookedBodyEnds | open-coroutine-core/src/coroutine/korosensei.rs:189-232 | whatever the hooks do, a yield is always accepted, and `resume_with` fails exactly when the body ends while still inside a system call |
| StateMachine.SyscallIsSticky | open-coroutine-core/src/coroutine/korosensei.rs:317-349 | without leaving it, one system call never turns into another |
| StateMachine.Coroutine.MakeReady | open-coroutine-core/src/coroutine/korosensei.rs:250-273 | accepted exactly from `Created` or a past `Suspend` |
| StateMachine.Coroutine.MakeRunning | open-coroutine-core/src/coroutine/korosensei.rs:275-299 | accepted exactly from `Created`, `Ready`, a past `Suspend` or `SystemCall`, and the last keeps its state |
| StateMachine.Coroutine.EnterSyscall | open-coroutine-core/src/coroutine/korosensei.rs:317-349 | accepted exactly from `Running` or the same system call |
| StateMachine.Coroutine.ResumeFromSyscall | open-coroutine-core/src/coroutine/korosensei.rs:351-369 | accepted exactly from `Finished` or `Timeout` |
| StateMachine.Coroutine.EndBody | open-coroutine-core/src/coroutine/korosensei.rs:301-402 | yield, return and panic: accepted exactly from `Running`, a yield also inside a system call |
| CurrentStacks.ResumeRestores | open-coroutine-core/src/coroutine/korosensei.rs:189-232 | for every nesting of resumes, with hooks acting on whatever the COROUTINE stack names: the SUSPENDER stack is restored, the old COROUTINE stack stays below with nothing active above it, and it grows by exactly the number of bodies that finished inside a system call |
| CurrentStacks.RestoredIff | open-coroutine-core/src/coroutine/korosensei.rs:213-232 | the COROUTINE stack is restored if and only if no body finished inside a system call, because the early error return skips `clean_current` |
| CurrentStacks.StaysCurrent | open-coroutine-core/src/coroutine/korosensei.rs:213-232 | one input: a body that enters a system call and returns leaves its coroutine current |
| CurrentStacks.ResumeDiscipline | open-coroutine-core/src/coroutine/suspender.rs:90-114 | without such errors, both stacks are restored, and whenever user code gets control they are equal with the innermost coroutine on top |
| CurrentStacks.HandOverPops | open-coroutine-core/src/coroutine/suspender.rs:140-145 | one hand-over pops the suspender, and pops the coroutine unless it is refused; no other active coroutine is touched |
| CurrentStacks.ResumeStamps | open-coroutine-core/src/coroutine/suspender.rs:48-63 | under any nesting the TIMESTAMP stack and every reported `Suspend` are determined by the hand-overs so far |
| CurrentStacks.TimestampDelivery | open-coroutine-core/src/coroutine/korosensei.rs:199-212 | if no delay is requested inside a system call, the TIMESTAMP stack is empty at every resume boundary and every `Suspend` carries its own timestamp, 0 for a plain one; whatever the timestamps |
| CurrentStacks.OwnStampsIff | open-coroutine-core/src/coroutine/suspender.rs:52-63 | all yields carry their own timestamps if and only if no plain suspend comes after a delay requested inside a system call |
| CurrentStacks.PendingStamps | open-coroutine-core/src/coroutine/suspender.rs:52-63 | until then, the TIMESTAMP stack is the list of the timestamps of the delays requested inside system calls, newest first |
| CurrentStacks.StrayTimestamp | open-coroutine-core/src/net/event_loop.rs:380-390 | one delay inside a system call, as `wait_just` makes it, puts off the next plain suspend of any other coroutine |
| CurrentStacks.ThreadLocals.TakeTimestamp | open-coroutine-core/src/coroutine/suspender.rs:60-62 | pops the newest request, or gives 0 |
| CurrentStacks.ThreadLocals.HandOverBack | open-coroutine-core/src/coroutine/korosensei.rs:199-232 | the second half of `resume_with` on the thread-local stacks equals its value-level specification |
| CurrentStacks.ThreadLocals.ResumeWith | open-coroutine-core/src/coroutine/korosensei.rs:189-232 | `resume_with` with nested resumes equals its value-level specification |
| SyscallProtocol.ProtocolHolds | open-coroutine-core/src/syscall/state.rs:21-43 | in every interleaving of timer expiry, `try_resume` and resumption, no `expect` or `unreachable!` of `change_state!` or `wait_just` fires and the state trace stays in the protocol |
| SyscallProtocol.StepReads | open-coroutine-core/src/net/event_loop.rs:352-437 | each step of a hooked call other than its end moves the protocol automaton legally |
| SyscallProtocol.HookedLife | open-coroutine-core/src/syscall/state.rs:21-43 | the states gone through outside a call are whole calls one after another: Computing, then any number of [Suspend t, Timeout or Computing, Calling, Computing], then Finished, Running |
| SyscallProtocol.Parse | open-coroutine-core/src/net/event_loop.rs:352-437 | every trace the automaton accepts is a sequence of whole calls and at most one call under way, in the form of the grammar |
| SchedulerProtocol.RunTracks | open-coroutine-core/src/scheduler/mod.rs:315-374 | in every legal run of the scheduler in which the bodies of a coroutine follow the hook program, the list of what happens to it (its own choices, expiry of its deadlines, `try_resume`, resumption) is one of the interleavings of the protocol, and the coroutine is where the protocol then says: at rest, in the syscall map, queued, or finished |
| SchedulerProtocol.StaysFinished | open-coroutine-core/src/scheduler/mod.rs:315-374 | a finished coroutine stays finished and is never resumed again |
| SchedulerReports.ProtocolInRuns | open-coroutine-core/src/syscall/state.rs:21-43 | for the protocol run that such a scheduler run is: no `expect` or `unreachable!` fires, at rest the states gone through are whole calls, and the listeners have been told exactly its suspensions and the states it was woken in, but for a wake-up still queued |
| SchedulerReports.RunTold | open-coroutine-core/src/scheduler/mod.rs:332-350 | along every such run the `on_syscall` and `on_resume` reports about the coroutine are exactly the waits of the protocol trace, in order |
| SchedulerReports.ResumeReports | open-coroutine-core/src/scheduler/mod.rs:332-350 | a resume reports of the resumed coroutine alone: the state it starts in and the state it comes back in |
| SchedulerProtocol.TurnTracks | open-coroutine-core/src/scheduler/mod.rs:315-374 | one scheduling turn, the coroutine's own or another's |
| SchedulerProtocol.CheckReadyTracks | open-coroutine-core/src/scheduler/mod.rs:139-193 | `check_ready` is an expiry exactly if a deadline entry of the coroutine is due |
| SchedulerProtocol.ProgramHooks | open-coroutine-core/src/syscall/state.rs:21-43 | the hook transitions of a body that follows the program leave its state as the protocol says |
| SyscallProtocol.EntryCondition | open-coroutine-core/src/syscall/state.rs:24-29 | entering a hooked call panics exactly if the coroutine is neither `Running` nor in the same call |
| SyscallProtocol.UntimedWait | open-coroutine-core/src/net/event_loop.rs:412-425 | a wait without timeout panics exactly outside a hooked call |
| SyscallProtocol.UnhookedWaitBreaksNextCall | open-coroutine-core/src/net/event_loop.rs:357-378 | a timed wait outside a hooked call leaves the coroutine in (epoll_wait, Computing), and the next hooked call panics unless it is epoll_wait |
| SyscallProtocol.CurrentCoroutine.WaitJust | open-coroutine-core/src/net/event_loop.rs:352-437 | one wait goes through its four states and no `expect` fails |
| SyscallProtocol.CurrentCoroutine.ChangeState | open-coroutine-core/src/syscall/state.rs:21-43 | one hooked call goes through the trace of the grammar, is back in `Running` and restores the stack of current system calls |
| SyscallStack.CallsAgreeIff | open-coroutine-core/src/syscall/state.rs:21-43 | with several coroutines in hooked calls on one thread: at every moment the SYSCALL stack holds exactly the calls under way, if and only if nobody leaves a call while a different call, entered later, is still under way |
| SyscallStack.OwnPopsIff | open-coroutine-core/src/syscall/state.rs:21-43 | every hook pops what it pushed if and only if everybody leaves in the reverse order of entering |
| SyscallStack.StackIsOpen | open-coroutine-core/src/constants.rs:80-93 | as long as everybody leaves in that order, the stack is the list of the calls under way, newest first |
| SyscallStack.CrossedCalls | open-coroutine-core/src/syscall/state.rs:21-43 | one input where a call that is over stays on the stack and the one under way is gone |
| SyscallStack.TwoEntered | open-coroutine-core/src/constants.rs:80-93 | while two calls are under way, the current one is the one entered last, also for the coroutine in the other |
| PoolTheorems.RunKeeps | open-coroutine-core/src/pool/mod.rs:465-509 | every run that keeps to the callers' promises preserves the pool invariant |
| PoolTheorems.StepKeeps | open-coroutine-core/src/pool/mod.rs:557-652 | so does every single step |
| PoolTheorems.WorkersCounted | open-coroutine-core/src/pool/mod.rs:574-625 | over every run, `running` never exceeds `max_size` and is the number of live workers if and only if no worker has crashed inside a system call |
| PoolTheorems.CrashInCallMiscounts | open-coroutine-core/src/pool/creator.rs:25-31 | such a crash: `error` refuses, so `on_error` is not called, the count stays, nobody replaces the worker and the schedule fails |
| PoolShutdown.MiscountIsReached | open-coroutine-core/src/pool/creator.rs:25-31 | a trace that reaches such a crash: `running` is 1 and nobody is left |
| PoolTheorems.RetiringKeepsMinimum | open-coroutine-core/src/pool/mod.rs:587-601 | before `stop`, nothing but a crash takes the number of counted workers below `min_size` |
| PoolTheorems.ShrinkStep | open-coroutine-core/src/pool/creator.rs:25-31 | only a retiring or a crashing worker makes the pool smaller |
| PoolTheorems.NoTaskStranded | open-coroutine-core/src/pool/mod.rs:465-509 | from the moment `stop` is called, a nonempty queue has a live worker, across worker errors and although growth is refused while stopping, unless a worker has crashed inside a system call; a stopped pool has no task, no worker and `running` 0 |
| PoolTheorems.SecondStopTripsAssertion | open-coroutine-core/src/pool/mod.rs:488-492 | a `stop` trips the assertion on the state if and only if an earlier one has changed the state and not finished |
| PoolShutdown.CanStopIff | open-coroutine-core/src/pool/mod.rs:493-508 | a stopping pool can reach `Stopped` if and only if no schedule has failed since, no worker has crashed inside a system call, waiting tasks have a worker, and it is not the case that everybody is idle with some worker left inside a system call |
| PoolShutdown.CanStop | open-coroutine-core/src/pool/mod.rs:493-508 | in that case, a continuation that reaches `Stopped` |
| PoolShutdown.NeverStops | open-coroutine-core/src/pool/mod.rs:493-508 | otherwise no continuation does |
| PoolShutdown.LeftInCallNeverStops | open-coroutine-core/src/pool/mod.rs:493-508 | a trace: a task leaves its worker inside a system call, the pool is stopped, and then no run stops it; the worker's attempt to retire makes the schedule, and so `stop`, fail |
| PoolShutdown.IdleLeftInCall | open-coroutine-core/src/pool/mod.rs:587-616 | what an idle worker left inside a system call does: retiring fails the schedule, stepping aside or a delay parks it, a blocker that does not yield changes nothing |
| PoolShutdown.CrashInCallStrands | open-coroutine-core/src/pool/creator.rs:25-31 | the crash of the only worker of a stopping pool inside a system call strands the tasks that wait |
| PoolShutdown.StrandingIsReached | open-coroutine-core/src/pool/creator.rs:25-31 | a trace that reaches such a pool |
| PoolInScheduler.WorkerTurn | open-coroutine-core/src/scheduler/mod.rs:332-370 | the turn of a worker's coroutine ends as the pool model says: a yield parks it exactly as `Yielded` does, a return or panic fails the schedule exactly when `Retired` or `Crashed` counts an error, and is reported otherwise |
| PoolInScheduler.WorkerWaits | open-coroutine-core/src/scheduler/mod.rs:301-313 | nothing that others do changes the flags of a waiting worker, but that it may be woken by name or by a due deadline entry |
| PoolInScheduler.ParkedForGood | open-coroutine-core/src/scheduler/mod.rs:343-350 | a worker parked without a deadline and without stale deadline entries stays parked in every run in which nobody calls `try_resume` for it |
| PoolShutdown.StrandedForGood | open-coroutine-core/src/pool/mod.rs:634-637 | a task without a worker in a stopping or stopped pool is started in no continuation |
| PoolShutdown.LateSubmissionServedIff | open-coroutine-core/src/pool/mod.rs:390-394 | a task submitted from outside after `stop` has begun (before its state change, while stopping, or when stopped) can still be run if and only if there is a worker |
| PoolShutdown.LateSubmissionStopsIff | open-coroutine-core/src/pool/mod.rs:390-394 | and the pool can still stop if and only if, besides, nothing has failed and no worker has crashed inside a system call |
| PoolShutdown.LateSubmissionIsStranded | open-coroutine-core/src/pool/mod.rs:390-394 | without a worker the late task waits for ever |
| PoolShutdown.WindowSubmissionIsStranded | open-coroutine-core/src/pool/mod.rs:470-492 | one input: a submission between the first round of `stop` and its state change |
| PoolShutdown.StoppedSubmissionIsStranded | open-coroutine-core/src/pool/mod.rs:466-469 | another: every submission to a stopped pool |
| PoolTheorems.TaskInOnePlace | open-coroutine-core/src/pool/mod.rs:557-572 | every submitted task is in exactly one of queue, worker, result table, handed out, or lost with a crashed worker |
| PoolTheorems.ExactlyOnce | open-coroutine-core/src/pool/mod.rs:557-572 | with new names, each task starts at most once, its result is stored once and handed out at most once as the task gave it, and no assertion fires |
| PoolTheorems.NoResultYet | open-coroutine-core/src/pool/mod.rs:560-563 | the assertion after `results.insert` holds |
| PoolTheorems.RepeatedNameTripsAssertion | open-coroutine-core/src/pool/mod.rs:560-563 | running a task trips that assertion if and only if a result under its name is uncollected |
| CoroutinePool.CoroutinePoolImpl.constructor | open-coroutine-core/src/pool/mod.rs:513-543 | a new pool satisfies the invariant |
| CoroutinePool.CoroutinePoolImpl.SubmitTask | open-coroutine-core/src/pool/mod.rs:390-394 | appends to the task queue |
| CoroutinePool.CoroutinePoolImpl.Grow | open-coroutine-core/src/pool/mod.rs:574-625 | exactly one newcomer joins, and is counted, if it is asked for, tasks wait and there is room; nobody else is touched, the invariant is kept, and tasks that wait then have a worker unless the count is wrong |
| CoroutinePool.CoroutinePoolImpl.BeginRound | open-coroutine-core/src/pool/mod.rs:627-643 | growth is refused once the pool is stopping |
| CoroutinePool.CoroutinePoolImpl.PopTask | open-coroutine-core/src/pool/mod.rs:396-408 | takes the oldest task |
| CoroutinePool.CoroutinePoolImpl.StoreResult | open-coroutine-core/src/pool/mod.rs:557-572 | stores the result under a name that had none |
| CoroutinePool.CoroutinePoolImpl.FoundNothing | open-coroutine-core/src/pool/mod.rs:587-616 | an idle worker retires exactly if the pool is stopping or it is old and above the minimum; the schedule fails exactly if it retires inside a system call |
| CoroutinePool.CoroutinePoolImpl.OnSuspend | open-coroutine-core/src/pool/creator.rs:13-23 | keeps the invariant and all workers, adds at most one, and afterwards tasks that wait have a worker unless the count is wrong |
| CoroutinePool.CoroutinePoolImpl.YieldWorker | open-coroutine-core/src/scheduler/mod.rs:343-350 | a worker that yields inside a system call without a deadline is parked |
| CoroutinePool.CoroutinePoolImpl.OnError | open-coroutine-core/src/pool/creator.rs:25-31 | outside a system call the count is corrected before growing, so waiting tasks keep a worker; inside one the schedule fails |
| CoroutinePool.CoroutinePoolImpl.TryGetResult | open-coroutine-core/src/pool/mod.rs:650-652 | removes and returns the result |
| PoolTheorems.TakenIsTheOutcome | open-coroutine-core/src/pool/mod.rs:650-652 | the result handed out is what the task gave, and it is handed out this once |
| PoolTheorems.RunInOrder | open-coroutine-core/src/pool/mod.rs:396-408 | over every run, the tasks begun and then the waiting ones are the submissions in order |
| PoolTheorems.BeginsInOrder | open-coroutine-core/src/pool/mod.rs:396-408 | the n-th submission is the n-th task to begin |
| PoolTheorems.TryRun | open-coroutine-core/src/pool/mod.rs:557-572 | a whole `try_run`, also a nested one: the oldest task is run, its own outcome is stored under its own name, and the worker is back where it was |
| PoolTheorems.LooksInVain | open-coroutine-core/src/pool/mod.rs:602-616 | fewer fruitless looks than there are workers block nobody |
| PoolTheorems.LastLookBlocks | open-coroutine-core/src/pool/mod.rs:602-616 | the fruitless look that completes the round blocks its worker, and a new round begins after it |
| PoolTheorems.RoundRelieves | open-coroutine-core/src/pool/mod.rs:627-643 | a scheduling round brings a newcomer, who can begin the oldest task, exactly if the pool accepts tasks, some wait and there is room |
| PoolTheorems.YieldRelieves | open-coroutine-core/src/pool/creator.rs:13-23 | so does a task that yields, in every state of the pool |
| PoolTheorems.CrashRelieves | open-coroutine-core/src/pool/creator.rs:25-31 | a worker that panics outside any call is replaced exactly if tasks wait |
| CoroutinePool.CoroutinePoolImpl.WaitInside | open-coroutine-core/src/pool/mod.rs:355-371 | a wait inside a coroutine: the pool is left as after exactly the attempts made, each with its check; the result is returned exactly if it is there at the first check or after one of the attempts, as the task gave it and handed out once; the wait fails only at the first expired attempt (or when the script of attempts runs out) |
| CoroutinePool.WaitEndsOnce | open-coroutine-core/src/pool/mod.rs:355-371 | how such a wait ends, after how many attempts and with what pool, is determined |
| CoroutinePool.CoroutinePoolImpl.Work | open-coroutine-core/src/pool/mod.rs:627-648 | what the workers do in one schedule is a run of the transition system |
| CoroutinePool.CoroutinePoolImpl.RunSchedule | open-coroutine-core/src/pool/mod.rs:627-648 | a schedule performs its events up to the first that makes it fail, which is a worker that retires or crashes inside a system call; it fails exactly if one of them is an error |
| CoroutinePool.CoroutinePoolImpl.Stop | open-coroutine-core/src/pool/mod.rs:465-509 | the pool is left as after exactly the schedules performed. Ok exactly if after some schedule no task waits and `running` is 0, all before left time and something to do, and none failed; a timeout exactly if the first schedule without time left was performed and did not empty the pool; the error of the first failing schedule is passed on; Ok leaves no worker, and as long as no worker has crashed inside a system call, waiting tasks have a worker in every outcome |
| CoroutinePool.CoroutinePoolImpl.StopLoop | open-coroutine-core/src/pool/mod.rs:493-508 | the same for the loop alone |
| CoroutinePool.StopEndsOnce | open-coroutine-core/src/pool/mod.rs:493-508 | how the loop ends, after how many schedules and with what pool, is determined |
| CoroutinePool.StopAtOnce | open-coroutine-core/src/pool/mod.rs:493-508 | one input: `stop` without any time still stops an idle pool |
| CoroutinePool.FailPointIff | open-coroutine-core/src/pool/mod.rs:627-648 | a schedule gets through exactly if no error is counted |
| WaitResult.RepliesAreRight | open-coroutine-core/src/pool/mod.rs:350-388 | in every interleaving of the waiter with the producing `try_run`, over any number of calls: no assertion fires, Ok carries the task's own result and is given at most once, a timeout is given only if the result was not there |
| WaitResult.StepKeeps | open-coroutine-core/src/pool/mod.rs:557-572 | each step of either thread keeps the invariant |
| WaitResult.WokenFindsResult | open-coroutine-core/src/pool/mod.rs:380-385 | a notified waiter finds the result |
| WaitResult.UnnotifiedStillGetsResult | open-coroutine-core/src/pool/mod.rs:380-385 | a waiter that was not notified finds the result when its wait expires, if it has been stored by then |
| WaitResult.MissedNotification | open-coroutine-core/src/pool/mod.rs:371-388 | the notification can be missed between the first check and the registration; the call still returns the result |
| NioRetry.RetryBuffer | open-coroutine-core/src/syscall/nio.rs:80-124 | every call passes the original region, and the loop returns the value of the first reply that is not retried |
| NioRetry.RetrySegments | open-coroutine-core/src/syscall/nio.rs:142-219 | every call passes the original bytes as the segments without the leading empty ones, header unchanged; no shift or underflow occurs |
| NioRetry.RetryLaws | open-coroutine-core/src/syscall/nio.rs:98-118 | for all scripts: after EINTR, and after a block that was waited out, one more call is made and the rest decides; a block that was not, any other error and any success decide at once |
| NioRetry.NextArguments | open-coroutine-core/src/syscall/nio.rs:157-183 | with nothing done, the in-place arithmetic only drops leading empty segments |
| NioRetry.AfterCall | open-coroutine-core/src/syscall/nio.rs:98-118 | the loop goes on exactly after EINTR and after a block that was waited out; a successful call always ends it, because it clears errno |
| NioRetry.Totals | open-coroutine-core/src/syscall/nio.rs:149-154 | running totals of the segment lengths |
| NioRetry.FromIndex | open-coroutine-core/src/syscall/nio.rs:262-268 | the first segment that is not wholly done |
| NioRetry.ReturnsWhatMoved | open-coroutine-core/src/syscall/nio.rs:237-340 | the returned count is all that the kernel moved, and -1 means that nothing was moved |
| NioRetry.WholeOnlyAtOnce | open-coroutine-core/src/syscall/nio.rs:80-124 | "the whole region is transferred" holds if and only if a single call transfers it whole |
| NioRetry.PartialTransferStops | open-coroutine-core/src/syscall/nio.rs:98-118 | one input: a call that moves 1 byte of 2 is the last one |
| NioRetry.LeadingEmptyFits | open-coroutine-core/src/syscall/nio.rs:175-179 | dropping the leading empty segments leaves the same bytes |
| PollBackoff.Poll | open-coroutine-core/src/syscall/nio.rs:411-437 | the waits follow the backoff, a zero answer comes exactly when it is used up, and never for an unlimited timeout |
| PollBackoff.PollQuiet | open-coroutine-core/src/syscall/nio.rs:411-437 | if every kernel poll gives 0, the waits sum to exactly T, there are 4 + ceil((T-15)/16) of them for T >= 15, and one more poll than waits |
| PollBackoff.WaitsSumToTimeout | open-coroutine-core/src/syscall/nio.rs:428-434 | the backoff sums to the timeout |
| PollBackoff.WaitCount | open-coroutine-core/src/syscall/nio.rs:428-434 | its length for T >= 15 |
| PollBackoff.ShortWaitCount | open-coroutine-core/src/syscall/nio.rs:428-434 | its length for T < 15 |
| PollBackoff.BackoffAt | open-coroutine-core/src/syscall/nio.rs:428-434 | with a limit the waits are 1, 2, 4, 8, 16, 16, ... but for the last, which is cut to what is left |
| RoundRobin.EventLoops.Next | open-coroutine-core/src/net/core.rs:55-84 | which loop is selected; never the monitor's when it is to be skipped; the counter is reset to 1 exactly then, and moves on by one modulo the number of loops in either case |
| RoundRobin.EventLoops.Sweep | open-coroutine-core/src/net/core.rs:94-98 | a sweep skipping the monitor selects loop 0 never, loop 1 twice and every other loop once; a sweep not skipping it selects every loop once |
| RoundRobin.SweepShares | open-coroutine-core/src/net/core.rs:182-198 | the same for any run of consecutive counter residues |
| WorkSteal.PushConserves | open-coroutine-queue/src/work_steal.rs:221-233 | a push adds exactly its item, also when half of the local queue spills |
| WorkSteal.PopConserves | open-coroutine-queue/src/work_steal.rs:285-336 | a pop removes exactly the item it returns |
| WorkSteal.PopNoneIffEmpty | open-coroutine-queue/src/work_steal.rs:285-336 | a pop finds nothing if and only if the shared queue and all local queues are empty |
| WorkSteal.SharedBeforeSiblingsIff | open-coroutine-queue/src/work_steal.rs:244-296 | the documented order, shared queue before siblings, is kept by a worker with an empty queue if and only if it is the turn of the shared queue or all siblings are empty |
| WorkSteal.SiblingBeforeShared | open-coroutine-queue/src/work_steal.rs:296-336 | one input where a sibling's item comes first |
| WorkSteal.ScanReaches | open-coroutine-queue/src/work_steal.rs:300-303 | from any random start the scan visits every queue within one lap |
| WorkSteal.ScanIsComplete | open-coroutine-queue/src/work_steal.rs:302-331 | the scan finds no victim if and only if all local queues are empty |
| WorkSteal.Victim | open-coroutine-queue/src/work_steal.rs:302-331 | the victim is a nonempty queue |
| WorkSteal.StealCount | open-coroutine-queue/src/work_steal.rs:317-325 | half of the victim, rounded up, or all the room there is if that is less |
| WorkSteal.TakeStolenExact | open-coroutine-queue/src/work_steal.rs:317-330 | a steal loses nothing and overfills nothing |
| WorkSteal.RunConserves | open-coroutine-queue/src/work_steal.rs:71-94 | over every run of global and local operations everything that entered the shared queue left it in order or is still there, so it is with every worker, and all items are accounted for |
| WorkStealOrder.OwnFirst | open-coroutine-queue/src/work_steal.rs:285-296 | unless it is the turn of a nonempty shared queue, a pop takes the oldest item of the own queue and changes nothing else |
| WorkStealOrder.SharedTurn | open-coroutine-queue/src/work_steal.rs:285-291 | on every 61st tick it takes the oldest shared item |
| WorkStealOrder.LeavesInOrder | open-coroutine-queue/src/work_steal.rs:221-336 | over every run, whatever is pushed, popped, spilled and stolen, the items of a worker leave it in order |
| WorkStealOrder.OwnPopsInOrder | open-coroutine-queue/src/work_steal.rs:285-296 | two pops of a worker from its own queue return what came to it in the order it came, whatever happens between them |
| WorkStealOrder.PushOrder | open-coroutine-queue/src/work_steal.rs:221-233 | a push goes to the back; if the worker is full, its older half goes to the shared queue in order, followed by the pushed item |
| WorkStealOrder.StealOrder | open-coroutine-queue/src/work_steal.rs:317-330 | a steal splits the victim in order: the item popped, what the thief keeps, what the victim keeps |
| WorkStealOrder.VictimIsFirst | open-coroutine-queue/src/work_steal.rs:302-316 | the scan robs the first nonempty queue that it meets |
| WorkStealOrder.DrainInOrder | open-coroutine-queue/src/work_steal.rs:262-283 | the documented example for all contents, ticks and starts: a worker that empties itself and one sibling gets its own items and then the sibling's, all in order, and then nothing |
| WorkSteal.CountdownStep | open-coroutine-queue/src/work_steal.rs:236-243 | the distance to the next shared-first pop decreases by one per pop, across the wrap of the 32-bit tick |
| WorkSteal.SharedFirstWithin61 | open-coroutine-queue/src/work_steal.rs:285-291 | any 61 consecutive pops of one worker include one that tries the shared queue first |
| WorkSteal.FairRun | open-coroutine-queue/src/work_steal.rs:285-296 | enough pops of one worker drain any prefix of the shared queue, whatever else happens meanwhile |
| WorkSteal.DepthBoundsWait | open-coroutine-queue/src/work_steal.rs:285-296 | the item at depth k of the shared queue has left it after 61(k+1) pops of one worker |
| WorkSteal.WorkStealQueue.Push | open-coroutine-queue/src/work_steal.rs:71-75 | appends, and the cached length stays exact |
| WorkSteal.WorkStealQueue.Pop | open-coroutine-queue/src/work_steal.rs:78-94 | takes the oldest item, `None` exactly when empty, cached length exact |
| WorkSteal.WorkStealQueue.LocalIndex | open-coroutine-queue/src/work_steal.rs:100-112 | hands out workers round robin, the first calls 0, 1, 2 and so on |
| WorkSteal.LocalQueue.PushBackItem | open-coroutine-queue/src/work_steal.rs:221-233 | overflow moves exactly the oldest len/2 items in order and then the new item |
| WorkSteal.LocalQueue.PopFrontItem | open-coroutine-queue/src/work_steal.rs:285-336 | the pop of the specification (whose order is that of `OwnFirst`, `SharedTurn`, `StealOrder`) for the start that was drawn; the steal lock is free afterwards |
| WorkSteal.LocalQueue.StealScan | open-coroutine-queue/src/work_steal.rs:302-331 | robs the first nonempty queue from the start; an empty own queue is never its own victim |
| WorkSteal.LocalQueue.Tick | open-coroutine-queue/src/work_steal.rs:236-243 | the tick wraps from the largest 32-bit value to 0 |
| Timer.DrainIsStableSort | open-coroutine-timer/src/lib.rs:197-224 | after any sequence of inserts, draining yields the stable sort of that sequence by timestamp |
| Timer.StableSortIsUnique | open-coroutine-timer/src/lib.rs:197-224 | a sequence has only one stable sort, so the order is fully determined |
| Timer.DueIsDrainedPrefix | open-coroutine-timer/src/lib.rs:216-224 | what is due at a cut is the leading part of the drained order, exactly up to the cut |
| Timer.HeldSplit | open-coroutine-timer/src/lib.rs:216-224 | taking the due part out loses nothing |
| Timer.TimeoutTime | open-coroutine-timer/src/lib.rs:68-72 | never before now, and the sum, cut to the largest 64-bit value |
| Timer.TimerList.InsertAt | open-coroutine-timer/src/lib.rs:197-213 | appends under the timestamp; the retry branch is unreachable |
| Timer.TimerList.Front | open-coroutine-timer/src/lib.rs:216-218 | the entry with the smallest key, whose timestamp is that key |
| Timer.TimerList.PopFront | open-coroutine-timer/src/lib.rs:221-224 | takes the first block of the drained order |
| Timer.TimerList.Len | open-coroutine-timer/src/lib.rs:178-188 | the number of items in the drained order |
| Timer.TimerList.IsEmpty | open-coroutine-timer/src/lib.rs:227-237 | true exactly when nothing would be drained |
| Timer.TimerList.EntryLen | open-coroutine-timer/src/lib.rs:191-193 | the number of keys, which is the number of distinct timestamps in the drained order if every entry holds something |
| Timer.DrainedStamps | open-coroutine-timer/src/lib.rs:191-193 | the timestamps of the drained order are the keys |
| Timer.TimerList.Drain | open-coroutine-timer/src/lib.rs:221-224 | popping until nothing is left yields the drained order |
| Rand.StepIsBijective | open-coroutine-queue/src/rand.rs:152-163 | the generator step is a bijection of the 64-bit state |
| Rand.StepsAreBijective | open-coroutine-queue/src/rand.rs:152-163 | so is any number of steps, with the inverse on both sides |
| Rand.MixedWord | open-coroutine-queue/src/rand.rs:156-157 | the regrouped mix equals the xor of the two words and their shifts |
| Rand.ZeroIsIsolated | open-coroutine-queue/src/rand.rs:152-163 | only the zero state leads to the zero state |
| Rand.NeverAbsorbed | open-coroutine-queue/src/rand.rs:152-163 | a nonzero generator never reaches the zero state |
| Rand.FromU64 | open-coroutine-queue/src/rand.rs:84-94 | the high word is kept, and so is the low word, but that 0 becomes 1 |
| Rand.SeedIsKept | open-coroutine-queue/src/rand.rs:84-94 | the two words put together again are the seed, where the 1 that replaced a zero counts as 0 |
| Rand.SeededNeverAbsorbed | open-coroutine-queue/src/rand.rs:84-98 | a generator seeded through `from_u64` never reaches the absorbing zero state |
| Rand.NextSeedAbsorbedIff | open-coroutine-queue/src/rand.rs:43-50 | `next_seed` gives the absorbing seed if and only if the generator state is the one before (r, -r) and r is a fixed point of the mix, where r is its second word |
| Rand.NextSeedCanBeAbsorbed | open-coroutine-queue/src/rand.rs:43-50 | such a state, reached by seeding through `from_u64` |
| Rand.ScaledBelow | open-coroutine-queue/src/rand.rs:145-150 | the high word of the product is below n |
| Rand.ScaledIff | open-coroutine-queue/src/rand.rs:145-150 | `fastrand_n` cuts the outputs into consecutive intervals, one for each value in order |
| Rand.EvenShares | open-coroutine-queue/src/rand.rs:145-150 | which cover all outputs and whose sizes differ by at most one |
| Rand.FastRand.FastrandN | open-coroutine-queue/src/rand.rs:145-150 | `fastrand_n(n) < n` for every n > 0 |
| Rand.FastRand.ReplaceSeed | open-coroutine-queue/src/rand.rs:136-143 | exchanges the state and returns the old one |
| Rand.FastRand.ReplaceAndRestore | open-coroutine-queue/src/rand.rs:136-143 | putting back the returned seed resumes the original output sequence exactly |

## Left out

- Context switching, stacks, trap and signal handlers (`korosensei.rs:404-654`): replaced by the body oracle.
- The monitor thread and signal preemption: shared state without synchronisation and raw pointers.
- Removal from the timer lists (`TimerEntry::remove`, `TimerList::remove`) and iteration over them.
- `Selector` and its process-wide record tables, `select`, `connect`, and the plain loops of `sleep` and `accept`-like calls.
- The insides and memory orderings of `Injector`, `st3`, `DashMap`; the cached length of the shared queue is a separate load and store, so its exactness is claimed one operation at a time.
- Workers stolen between pools, raw pointers, leaked boxes, ownership of the memory passed to `Vec::from_raw_parts`; coroutines are names with cells, so aliasing is not modelled.
- A pool started on its own thread (`start`, `Stopping(true)`): only the state change of `start` is modelled; `stop` is proved for a pool without its own thread. A second `stop` after a timed-out or failed one is excluded by the callers' promises (`SecondStopTripsAssertion`).
- Failure to allocate a coroutine stack: `submit` and `grow` always succeed in the model.
- The wrap of the counter of running workers at its upper end, of timestamps beyond 64 bits (except in `get_timeout_time`) and of the round-robin counter: the sweep is stated without a wrap.
- Transitions that a body performs on its own state other than entering, re-entering and leaving a system call.
- Hooks, macros, facade, configuration, logging, build scripts, coroutine-local storage.
- PoolInScheduler.WorkerTurn: relates the coroutine of one worker to the pool model; that the coroutines a pool submits are the workers it adds is not stated.
- RoundRobin.EventLoops.Sweep: stated for at least two loops, the preemptive build, one caller and no wrap of the counter.
- PollBackoff.PollQuiet: the largest timeout is excluded, because the code treats it as no limit.
