// `CoroutinePoolImpl` (pool/mod.rs) with the callbacks of `CoroutineCreator` (pool/creator.rs),
// each method proved to be one step of the transition system.
module CoroutinePool {
  import opened Constants
  import opened PoolModel
  import PoolTheorems

  /** The step that makes a schedule fail: a worker inside a system call retires or crashes. */
  predicate Fails(p: Pool, e: Event) {
    && !p.broken && (e.Idle? || e.Crash?) && e.i < |p.workers| && Free(p.workers[e.i]) && p.workers[e.i].inCall
    && (e.Idle? ==> p.workers[e.i].stack == [] && p.tasks == [] && Recycles(p, e.aged))
  }

  lemma FailsIff(p: Pool, e: Event)
    ensures Step(p, e).errors == p.errors + if Fails(p, e) then 1 else 0
    ensures !Fails(p, e) && !e.StopBegin? ==> Step(p, e).stopCalled == p.stopCalled && Step(p, e).stopOver == p.stopOver
    ensures Fails(p, e) ==> if Accepting(p.state) then !Step(p, e).stopCalled else Step(p, e).stopOver
  {
    if OfWorker(e) && e.i < |p.workers| && !p.broken {
      WorkerFailsIff(p, e);
      hide WorkerStep;
    } else {
      hide Grown;
    }
  }

  /** The errors counted and the fate of a `stop` under way, after a step that fails or not. */
  ghost predicate Ends(p: Pool, p': Pool, fails: bool) {
    && p'.errors == p.errors + (if fails then 1 else 0)
    && (!fails ==> p'.stopCalled == p.stopCalled && p'.stopOver == p.stopOver)
    && (fails ==> if Accepting(p.state) then !p'.stopCalled else p'.stopOver)
  }

  lemma WorkerFailsIff(p: Pool, e: Event)
    requires OfWorker(e) && e.i < |p.workers| && !p.broken
    ensures Ends(p, WorkerStep(p, e), Fails(p, e))
  {
    if e.Idle? {
      IdleFailsIff(p, e.i, e.aged, e.delays);
      hide Ends, Idled;
      assert Ends(p, p, false);
    } else if e.Crash? {
      hide Grown;
    } else {
      assert !Fails(p, e);
      hide Fails, Yielded;
    }
  }

  lemma IdleFailsIff(p: Pool, i: nat, aged: bool, delays: bool)
    requires i < |p.workers|
    ensures Ends(p, Idled(p, i, aged, delays), p.workers[i].inCall && Recycles(p, aged))
    ensures Ends(p, p, false)
  {
    hide Yielded;
  }

  /** One call of `try_timed_schedule`: what the workers do, and the time it says is left. */
  datatype Schedule = Schedule(events: seq<Event>, left: nat)

  /** How `stop` ends; the script of schedules may also run out. */
  datatype StopResult = Ok | TimedOut | ScheduleFailed | Unfinished

  /** What workers do by themselves: nobody starts or stops the pool, and only tasks submit. */
  predicate Internal(e: Event) {
    !e.Start? && !e.StopBegin? && !e.StopTurn? && !e.StopCheck? && (e.Submit? ==> e.inside.Some?)
  }

  /** The schedules of the loop of `stop` keep to what callers promise. */
  ghost predicate AllowedScript(p: Pool, script: seq<Schedule>)
    decreases script
  {
    script == []
    || var es := RoundOf(script[0]);
       && AllAllowed(p, es) && (forall e <- es :: Internal(e))
       && AllowedScript(Step(Run(p, es), StopCheck), script[1..])
  }

  /** One turn of a wait inside a coroutine: what happens in its `try_run`, and whether time is up after it. */
  datatype Attempt = Attempt(events: seq<Event>, expired: bool)

  ghost predicate AllowedAttempts(p: Pool, name: Name, script: seq<Attempt>)
    decreases script
  {
    script == []
    || (&& AllAllowed(p, script[0].events) && (forall e <- script[0].events :: Internal(e))
        && AllowedAttempts(Step(Run(p, script[0].events), Take(name)), name, script[1..]))
  }

  /** The position of the first event that makes the schedule fail, or the number of events. */
  function FailPoint(p: Pool, es: seq<Event>): (k: nat)
    ensures k <= |es|
    decreases es
  {
    if es == [] || Fails(p, es[0]) then 0 else 1 + FailPoint(Step(p, es[0]), es[1..])
  }

  /** A schedule gets through exactly if no error is counted. */
  lemma {:induction false} FailPointIff(p: Pool, es: seq<Event>)
    ensures Run(p, es).errors >= p.errors
    ensures FailPoint(p, es) == |es| <==> Run(p, es).errors == p.errors
    decreases es
  {
    if es != [] {
      FailsIff(p, es[0]);
      hide Step, Fails;
      FailPointIff(Step(p, es[0]), es[1..]);
    }
  }

  /** The events that a schedule performs. */
  function Performed(p: Pool, es: seq<Event>): seq<Event> {
    if FailPoint(p, es) == |es| then es else es[..FailPoint(p, es) + 1]
  }

  // ---------- the rounds of `stop` ----------

  function RoundOf(schedule: Schedule): seq<Event> {
    [Round] + schedule.events
  }

  /** The pool after the first `k` schedules of the loop of `stop`. */
  function Rounds(p: Pool, script: seq<Schedule>, k: nat): Pool
    requires k <= |script|
  {
    if k == 0 then p else Run(Rounds(p, script, k - 1), RoundOf(script[k - 1]))
  }

  predicate Emptied(p: Pool) {
    p.tasks == [] && p.running == 0
  }

  /** Schedule `k` gets through. */
  predicate Through(p: Pool, script: seq<Schedule>, k: nat)
    requires k < |script|
  {
    Run(Rounds(p, script, k), RoundOf(script[k])).errors == Rounds(p, script, k).errors
  }

  /** After each of the first `k` schedules the loop goes on: no error, something left to do, time left. */
  ghost predicate GoesOn(p: Pool, script: seq<Schedule>, k: nat)
    requires k <= |script|
  {
    forall j | 0 <= j < k :: Through(p, script, j) && !Emptied(Rounds(p, script, j + 1)) && script[j].left > 0
  }

  /**
   * How `stop` ends from `p` on, when its loop goes on `n` times: `p'` is the pool after exactly the
   * schedules performed.
   */
  ghost predicate StopEnds(p: Pool, script: seq<Schedule>, n: nat, r: StopResult, p': Pool) {
    && n <= |script| && GoesOn(p, script, n)
    && match r
       case Unfinished => n == |script| && p' == Rounds(p, script, n)
       case ScheduleFailed =>
         && n < |script| && !Through(p, script, n)
         && p' == Run(Rounds(p, script, n), Performed(Rounds(p, script, n), RoundOf(script[n])))
       case Ok =>
         && n < |script| && Through(p, script, n) && Emptied(Rounds(p, script, n + 1))
         && p' == Rounds(p, script, n + 1).(state := Stopped)
       case TimedOut =>
         && n < |script| && Through(p, script, n) && !Emptied(Rounds(p, script, n + 1)) && script[n].left == 0
         && p' == Rounds(p, script, n + 1)
  }

  /** One round of the loop of `stop` from `q` to `q'`, before the test for the time left. */
  ghost predicate RoundEnds(q: Pool, schedule: Schedule, r: StopResult, q': Pool) {
    var p := Run(q, RoundOf(schedule));
    match r
    case Ok => p.errors == q.errors && Emptied(p) && q' == p.(state := Stopped)
    case Unfinished => p.errors == q.errors && !Emptied(p) && q' == p
    case ScheduleFailed => p.errors != q.errors && q' == Run(q, Performed(q, RoundOf(schedule)))
    case TimedOut => false
  }

  lemma AfterRound(p: Pool, script: seq<Schedule>, k: nat, r: StopResult, p': Pool)
    requires k < |script| && GoesOn(p, script, k) && RoundEnds(Rounds(p, script, k), script[k], r, p')
    ensures r != Unfinished ==> StopEnds(p, script, k, r, p')
    ensures r == Unfinished ==> p' == Rounds(p, script, k + 1)
    ensures r == Unfinished && script[k].left == 0 ==> StopEnds(p, script, k, TimedOut, p')
    ensures r == Unfinished && script[k].left > 0 ==> GoesOn(p, script, k + 1)
  {
    hide Run, Performed, Emptied;
  }

  /** The script decides: there is one way for `stop` to end. */
  lemma StopEndsOnce(p: Pool, script: seq<Schedule>, n: nat, r: StopResult, p': Pool, n': nat, r': StopResult, p'': Pool)
    requires StopEnds(p, script, n, r, p') && StopEnds(p, script, n', r', p'')
    ensures n == n' && r == r' && p' == p''
  {
    hide Rounds, Emptied, Through, Performed, Run;
  }

  /** So `stop` with no time at all still stops an idle pool. */
  lemma StopAtOnce(p: Pool)
    requires !p.broken && p.state == Stopping(false) && Emptied(p)
    ensures StopEnds(p, [Schedule([], 0)], 0, Ok, p.(state := Stopped))
  {
    var script := [Schedule([], 0)];
    assert RoundOf(script[0]) == [Round] && [Round][1..] == [];
    assert Run(p, [Round]) == Run(Step(p, Round), []) == p;
    assert Rounds(p, script, 0) == p && Rounds(p, script, 1) == Run(p, [Round]);
  }

  // ---------- the attempts of a wait ----------

  /** The pool that check `k` of a wait looks at: the first before, the others after an attempt each. */
  function Checked(p: Pool, name: Name, script: seq<Attempt>, k: nat): Pool
    requires k <= |script|
  {
    if k == 0 then p else Run(Step(Checked(p, name, script, k - 1), Take(name)), script[k - 1].events)
  }

  /** A wait that makes `n` attempts: no result at the checks before, and no attempt before the last expires. */
  ghost predicate WaitEnds(p: Pool, name: Name, script: seq<Attempt>, n: nat, r: Option<Outcome>, p': Pool) {
    && n <= |script| && (forall j | 0 <= j < n :: name !in Checked(p, name, script, j).results)
    && (forall j | 0 <= j < n - 1 :: !script[j].expired)
    && p' == Step(Checked(p, name, script, n), Take(name))
    && var results := Checked(p, name, script, n).results;
       if name in results then r == Some(results[name])
       else r == None && (n == |script| || (n > 0 && script[n - 1].expired))
  }

  /** The script decides here too. */
  lemma WaitEndsOnce(p: Pool, name: Name, script: seq<Attempt>, n: nat, r: Option<Outcome>, p': Pool,
                     n': nat, r': Option<Outcome>, p'': Pool)
    requires WaitEnds(p, name, script, n, r, p') && WaitEnds(p, name, script, n', r', p'')
    ensures n == n' && r == r' && p' == p''
  {
    hide Checked, Step;
  }

  /** Only `start` and `stop` change the state of a pool. */
  lemma InternalStep(p: Pool, e: Event)
    requires Internal(e)
    ensures Step(p, e).state == p.state
  {
    hide Grown, Yielded, Idled, Crashed;
  }

  lemma RetireIs(p: Pool, i: nat, aged: bool, delays: bool)
    requires i < |p.workers| && Recycles(p, aged)
    ensures Idled(p, i, aged, delays) == Retired(p, i)
  {
    hide Retired, Yielded;
  }

  lemma CountOf(p: Pool)
    requires PoolTheorems.Inv(p)
    ensures PoolTheorems.Counted(p)
  {
  }

  lemma FinishIs(p: Pool, i: nat, outcome: Outcome)
    requires !p.broken && i < |p.workers| && Busy(p.workers[i])
    ensures Step(p, Finish(i, outcome)) == Completed(p, i, outcome)
  {
  }

  /** What the end of a worker's loop body and its panic come to. */
  lemma EndsAs(p: Pool, i: nat, aged: bool, delays: bool)
    requires PoolTheorems.Inv(p) && i < |p.workers| && Free(p.workers[i])
    ensures PoolTheorems.Counted(p)
    ensures p.workers[i].stack == [] && p.tasks == [] ==> Step(p, Idle(i, aged, delays)) == Idled(p, i, aged, delays)
    ensures Step(p, Crash(i)) == Crashed(p, i)
    ensures !p.workers[i].inCall && p.tasks != [] ==> Crashed(p, i).workers != []
  {
    hide Idled, PoolTheorems.Accounted, PoolTheorems.Honest;
  }

  /** The two halves of the part of `stop` before its loop. */
  lemma StopSteps(p: Pool)
    requires !p.broken && p.state == PoolCreated
    ensures Step(p, StopBegin) == Grown(p, true).(stopCalled := true)
    ensures Grown(p, true).state == PoolCreated && !Grown(p, true).broken
    ensures p.stopCalled ==> Step(p, StopTurn) == p.(state := Stopping(false))
  {
  }

  class CoroutinePoolImpl {
    var state: PoolState
    const minSize: nat
    const maxSize: nat
    var tasks: seq<Name>
    var workers: seq<Worker>
    var running: nat
    var popFails: nat
    var results: map<Name, Outcome>
    ghost var stopCalled: bool
    ghost var stopOver: bool
    ghost var errors: nat
    ghost var leaked: nat
    ghost var submitted: seq<Name>
    ghost var started: seq<Name>
    ghost var lost: seq<Name>
    ghost var outcomes: map<Name, Outcome>
    ghost var taken: seq<(Name, Outcome)>

    ghost function State(): Pool
      reads this
    {
      Pool(state, minSize, maxSize, tasks, workers, running, popFails, results, stopCalled, stopOver, errors, leaked, false,
           submitted, started, lost, outcomes, taken)
    }

    ghost predicate Valid()
      reads this
    {
      PoolTheorems.Inv(State()) && maxSize >= 1
    }

    constructor (minSize: nat, maxSize: nat)
      requires maxSize >= 1
      ensures Valid() && State() == Fresh(minSize, maxSize)
    {
      this.minSize, this.maxSize := minSize, maxSize;
      state, tasks, workers, running, popFails, results := PoolCreated, [], [], 0, 0, map[];
      stopCalled, stopOver, errors, leaked := false, false, 0, 0;
      submitted, started, lost, outcomes, taken := [], [], [], map[], [];
      new;
      PoolTheorems.FreshInv(minSize, maxSize);
    }

    method SubmitTask(name: Name, inside: Option<nat>)
      requires Valid() && Allowed(State(), Submit(name, inside))
      modifies this`tasks, this`submitted
      ensures Valid() && State() == Step(old(State()), Submit(name, inside))
    {
      PoolTheorems.StepKeeps(State(), Submit(name, inside));
      tasks := tasks + [name];
      submitted := submitted + [name];
    }

    /**
     * One newcomer joins if it is asked for, tasks wait and there is room; the others are untouched.
     * So tasks that wait then have a worker, unless the count is wrong.
     */
    method Grow(should: bool)
      requires PoolTheorems.Counted(State()) && maxSize >= 1
      modifies this`workers, this`running
      ensures State() == Grown(old(State()), should)
      ensures old(Valid()) ==> Valid()
      ensures if should && tasks != [] && old(running) < maxSize
              then workers == old(workers) + [NEWCOMER] && running == old(running) + 1
              else workers == old(workers) && running == old(running)
      ensures should && tasks != [] && leaked == 0 ==> workers != []
    {
      if old(Valid()) {
        PoolTheorems.GrownKeeps(State(), should);
      }
      if !should || tasks == [] || running >= maxSize {
        return;
      }
      workers := workers + [NEWCOMER];
      running := running + 1;
    }

    /** The start of a scheduling round: growth is refused once the pool is stopping. */
    method BeginRound()
      requires Valid()
      modifies this`workers, this`running
      ensures Valid() && State() == Step(old(State()), Round)
    {
      PoolTheorems.StepKeeps(State(), Round);
      Grow(Accepting(state));
    }

    /** The first half of `try_run`, in worker `i`. */
    method PopTask(i: nat) returns (task: Option<Name>)
      requires Valid() && i < |workers| && Free(workers[i])
      modifies this`tasks, this`workers, this`started
      ensures Valid() && State() == Step(old(State()), Begin(i))
      ensures task == if old(tasks) == [] then None else Some(old(tasks)[0])
    {
      PoolTheorems.StepKeeps(State(), Begin(i));
      if tasks == [] {
        return None;
      }
      task := Some(tasks[0]);
      started := started + [tasks[0]];
      workers := workers[i := workers[i].(stack := [tasks[0]] + workers[i].stack)];
      tasks := tasks[1..];
    }

    /** The second half of `try_run`: no earlier result is overwritten. */
    method StoreResult(i: nat, outcome: Outcome)
      requires Valid() && i < |workers| && Busy(workers[i])
      modifies this`workers, this`results, this`outcomes, this`popFails
      ensures Valid() && State() == Step(old(State()), Finish(i, outcome))
      ensures old(workers)[i].stack[0] !in old(results)
      ensures results == old(results)[old(workers)[i].stack[0] := outcome]
    {
      PoolTheorems.StepKeeps(State(), Finish(i, outcome));
      PoolTheorems.NoResultYet(State(), i);
      FinishIs(State(), i, outcome);
      hide PoolTheorems.Inv, Step, Completed;
      RecordResult(i, outcome);
    }

    /** The result goes into the table and the task off the worker's stack. */
    method RecordResult(i: nat, outcome: Outcome)
      requires i < |workers| && workers[i].stack != [] && workers[i].stack[0] !in results
      modifies this`workers, this`results, this`outcomes, this`popFails
      ensures State() == Completed(old(State()), i, outcome)
      ensures results == old(results)[old(workers)[i].stack[0] := outcome]
    {
      var w := workers[i];
      var name := w.stack[0];
      results := results[name := outcome];
      outcomes := outcomes[name := outcome];
      workers := workers[i := w.(stack := w.stack[1..])];
      if workers[i].stack == [] {
        popFails := 0;
      }
    }

    /** A worker yields; in a system call without a deadline it is parked. The callbacks may grow the pool. */
    method YieldWorker(i: nat, timed: bool)
      requires PoolTheorems.Counted(State()) && maxSize >= 1 && i < |workers|
      modifies this`workers, this`running
      ensures State() == Yielded(old(State()), i, timed)
      ensures i < |workers| && (workers[i].parked <==> old(workers)[i].inCall && !timed)
    {
      var w := workers[i];
      workers := workers[i := w.(parked := w.inCall && !timed)];
      OnSuspend();
    }

    /** A worker that found no task: it retires, or steps aside for the next one, or blocks. */
    method FoundNothing(i: nat, aged: bool, delays: bool) returns (retired: bool)
      requires Valid() && i < |workers| && Free(workers[i]) && workers[i].stack == [] && tasks == []
      modifies this`workers, this`running, this`popFails, this`errors, this`stopCalled, this`stopOver
      ensures Valid() && State() == Step(old(State()), Idle(i, aged, delays))
      ensures retired <==> !Accepting(state) || (aged && old(running) > minSize)
      ensures retired && Accepting(state) ==> running >= minSize
      ensures errors > old(errors) <==> retired && old(workers)[i].inCall
    {
      PoolTheorems.StepKeeps(State(), Idle(i, aged, delays));
      FailsIff(State(), Idle(i, aged, delays));
      EndsAs(State(), i, aged, delays);
      hide PoolTheorems.Inv, Grown, Step, Retired, Yielded;
      var recycle := match state
        case PoolCreated => false
        case PoolRunning => false
        case Stopping(_) => true
        case Stopped => true;
      retired := (aged && running > minSize) || recycle;
      assert retired == Recycles(State(), aged);
      hide Idled, Recycles;
      if retired {
        RetireIs(State(), i, aged, delays);
        Retire(i);
      } else {
        StepAside(i, aged, delays);
      }
    }

    /** A worker that stays: it makes room for the next one, or blocks. */
    method StepAside(i: nat, ghost aged: bool, delays: bool)
      requires PoolTheorems.Counted(State()) && maxSize >= 1 && i < |workers| && !Recycles(State(), aged)
      modifies this`workers, this`running, this`popFails
      ensures State() == Idled(old(State()), i, aged, delays)
    {
      hide Yielded;
      popFails := popFails + 1;
      if popFails < running {
        YieldWorker(i, false);
      } else if delays {
        workers := workers[i := workers[i].(blocked := true)];
        YieldWorker(i, false);
      } else {
        popFails := 0;
      }
    }

    /** The worker's body returns; `complete` refuses inside a system call, and the schedule fails. */
    method Retire(i: nat)
      requires i < |workers|
      modifies this`workers, this`running, this`errors, this`stopCalled, this`stopOver
      ensures State() == Retired(old(State()), i)
    {
      ghost var failed := workers[i].inCall;
      running := SaturatingDec(running);
      workers := workers[..i] + workers[i + 1..];
      if failed {
        RecordFailure();
      }
    }

    /** The error of a schedule ends a `stop` that waits for it. */
    ghost method RecordFailure()
      modifies this`errors, this`stopCalled, this`stopOver
      ensures State() == Failed(old(State()))
    {
      errors := errors + 1;
      if Accepting(state) {
        stopCalled := false;
      } else {
        stopOver := true;
      }
    }

    /** `on_suspend` and `on_syscall`: afterwards tasks that wait have a worker, unless the count is wrong. */
    method OnSuspend()
      requires PoolTheorems.Counted(State()) && maxSize >= 1
      modifies this`workers, this`running
      ensures State() == Grown(old(State()), true) && (old(Valid()) ==> Valid())
      ensures old(workers) <= workers && |workers| <= |old(workers)| + 1
      ensures tasks != [] && leaked == 0 ==> workers != []
    {
      Grow(true);
    }

    /** The panic of worker `i`: `on_error`, or a failed schedule if it is inside a system call. */
    method OnError(i: nat)
      requires Valid() && i < |workers| && Free(workers[i])
      modifies this`workers, this`running, this`lost, this`leaked, this`errors, this`stopCalled, this`stopOver
      ensures Valid() && State() == Step(old(State()), Crash(i))
      ensures !old(workers)[i].inCall && tasks != [] ==> workers != []
      ensures errors > old(errors) <==> old(workers)[i].inCall
    {
      PoolTheorems.StepKeeps(State(), Crash(i));
      FailsIff(State(), Crash(i));
      EndsAs(State(), i, false, false);
      hide PoolTheorems.Inv, Step, Crashed;
      Bury(i);
    }

    /** A crashed worker is taken out, and replaced unless it was inside a system call. */
    method Bury(i: nat)
      requires PoolTheorems.Counted(State()) && maxSize >= 1 && i < |workers|
      modifies this`workers, this`running, this`lost, this`leaked, this`errors, this`stopCalled, this`stopOver
      ensures State() == Crashed(old(State()), i)
    {
      hide Grown, Failed;
      lost := lost + workers[i].stack;
      var inCall := workers[i].inCall;
      workers := workers[..i] + workers[i + 1..];
      if inCall {
        leaked := leaked + 1;
        RecordFailure();
      } else {
        running := WrappingDec(running);
        Grow(true);
      }
    }

    method TryGetResult(name: Name) returns (r: Option<Outcome>)
      requires Valid()
      modifies this`results, this`taken
      ensures Valid() && State() == Step(old(State()), Take(name))
      ensures r == if name in old(results) then Some(old(results)[name]) else None
    {
      PoolTheorems.StepKeeps(State(), Take(name));
      if name !in results {
        return None;
      }
      r := Some(results[name]);
      taken := taken + [(name, results[name])];
      results := results - {name};
    }

    /**
     * `wait_result` inside a coroutine, which runs tasks itself until its result is there or the time is
     * up: the result is the one that the task gave.
     */
    method WaitInside(name: Name, script: seq<Attempt>) returns (r: Option<Outcome>, ghost n: nat)
      requires Valid() && AllowedAttempts(Step(State(), Take(name)), name, script)
      modifies this
      ensures Valid()
      ensures WaitEnds(old(State()), name, script, n, r, State())
      ensures r.Some? ==> name in outcomes && r.value == outcomes[name] && PoolTheorems.HandedOut(taken, name) == 1
      ensures r.None? ==> name !in results
    {
      hide PoolTheorems.Inv, Step, Run, AllAllowed, Internal, PoolTheorems.HandedOut;
      ghost var p := State();
      n := 0;
      r := Collect(name);
      if r.Some? {
        return;
      }
      var k := 0;
      assert script[0..] == script;
      while k < |script|
        invariant k == n <= |script| && Valid() && r.None? && name !in results
        invariant State() == Step(Checked(p, name, script, k), Take(name))
        invariant forall j | 0 <= j <= k :: name !in Checked(p, name, script, j).results
        invariant forall j | 0 <= j < k :: !script[j].expired
        invariant AllowedAttempts(State(), name, script[k..])
      {
        assert script[k..][0] == script[k] && script[k..][1..] == script[k + 1..];
        Work(script[k].events);
        n := n + 1;
        r := Collect(name);
        if r.Some? || script[k].expired {
          return;
        }
        k := k + 1;
      }
    }

    /** `try_get_result` for a waiter. */
    method Collect(name: Name) returns (r: Option<Outcome>)
      requires Valid()
      modifies this`results, this`taken
      ensures Valid() && State() == Step(old(State()), Take(name)) && name !in results
      ensures r == if name in old(results) then Some(old(results)[name]) else None
      ensures r.Some? ==> name in outcomes && r.value == outcomes[name] && PoolTheorems.HandedOut(taken, name) == 1
    {
      if name in results {
        PoolTheorems.TakenIsTheOutcome(State(), name);
      }
      hide PoolTheorems.Inv, PoolTheorems.HandedOut;
      r := TryGetResult(name);
    }

    /** One event of a schedule. */
    method Perform(e: Event)
      requires Valid() && Internal(e) && Allowed(State(), e)
      modifies this
      ensures Valid() && State() == Step(old(State()), e)
    {
      hide PoolTheorems.Inv;
      if e.Cross? || e.Hand? || e.Unblock? || e.Wake? {
        Mark(e);
        return;
      }
      match e {
        case Submit(name, inside) =>
          SubmitTask(name, inside);
        case Round =>
          BeginRound();
        case Begin(i) =>
          if i < |workers| && Free(workers[i]) {
            var _ := PopTask(i);
          }
        case Finish(i, outcome) =>
          if i < |workers| && Busy(workers[i]) {
            StoreResult(i, outcome);
          }
        case Idle(i, aged, delays) =>
          if i < |workers| && Free(workers[i]) && workers[i].stack == [] && tasks == [] {
            var _ := FoundNothing(i, aged, delays);
          }
        case Crash(i) =>
          if i < |workers| && Free(workers[i]) {
            OnError(i);
          }
        case Take(name) =>
          var _ := TryGetResult(name);
      }
    }

    /** The remaining events: a task enters or leaves a system call or yields, a worker is woken or unblocked. */
    method Mark(e: Event)
      requires Valid() && (e.Cross? || e.Hand? || e.Unblock? || e.Wake?)
      modifies this`workers, this`running, this`popFails
      ensures Valid() && State() == Step(old(State()), e)
    {
      PoolTheorems.StepKeeps(State(), e);
      CountOf(State());
      hide PoolTheorems.Inv, WorkerStep;
      if e.i < |workers| {
        MarkWorker(e);
      }
    }

    method MarkWorker(e: Event)
      requires PoolTheorems.Counted(State()) && maxSize >= 1
      requires (e.Cross? || e.Hand? || e.Unblock? || e.Wake?) && e.i < |workers|
      modifies this`workers, this`running, this`popFails
      ensures State() == WorkerStep(old(State()), e)
    {
      hide Grown, Yielded;
      var i, w := e.i, workers[e.i];
      match e {
        case Cross(_, into) =>
          if Busy(w) {
            workers := workers[i := w.(inCall := into)];
          }
        case Hand(_, timed) =>
          if Busy(w) {
            YieldWorker(i, timed);
          }
        case Unblock(_) =>
          if w.blocked && !w.parked {
            workers := workers[i := w.(blocked := false)];
            popFails := 0;
          }
        case Wake(_) =>
          workers := workers[i := w.(parked := false)];
      }
    }

    method Work(events: seq<Event>)
      requires Valid() && AllAllowed(State(), events) && forall e <- events :: Internal(e)
      modifies this
      ensures Valid() && State() == Run(old(State()), events)
    {
      hide PoolTheorems.Inv, Step, Allowed;
      var k := 0;
      assert events[0..] == events;
      while k < |events|
        invariant k <= |events| && Valid()
        invariant Run(State(), events[k..]) == Run(old(State()), events)
        invariant AllAllowed(State(), events[k..])
      {
        assert events[k..][0] == events[k] && events[k..][1..] == events[k + 1..];
        Perform(events[k]);
        k := k + 1;
      }
    }

    /** One schedule: it performs its events up to the first that makes it fail. */
    method RunSchedule(events: seq<Event>) returns (ok: bool)
      requires Valid() && AllAllowed(State(), events) && forall e <- events :: Internal(e)
      modifies this
      ensures Valid() && State() == Run(old(State()), Performed(old(State()), events))
      ensures ok <==> Run(old(State()), events).errors == old(errors)
      ensures errors == old(errors) + if ok then 0 else 1
      ensures ok ==> State() == Run(old(State()), events)
      ensures state == old(state)
      ensures ok ==> stopCalled == old(stopCalled) && stopOver == old(stopOver)
      ensures !ok ==> if Accepting(state) then !stopCalled else stopOver
    {
      ghost var orig := State();
      FailPointIff(orig, events);
      hide PoolTheorems.Inv, Step, Allowed, Fails, Run, AllAllowed, Internal;
      var k := 0;
      assert events[0..] == events && events[..0] == [];
      RunNone(orig);
      while k < |events|
        invariant k <= |events| && Valid() && errors == old(errors) && state == old(state)
        invariant stopCalled == old(stopCalled) && stopOver == old(stopOver)
        invariant FailPoint(orig, events) == k + FailPoint(State(), events[k..])
        invariant State() == Run(orig, events[..k]) && AllAllowed(State(), events[k..])
      {
        var e := events[k];
        ghost var p := State();
        assert events[k..] == [e] + events[k + 1..];
        assert events[..k + 1] == events[..k] + [e];
        RunSplits(orig, events[..k], e);
        AllowedSplits(p, e, events[k + 1..]);
        FailsIff(p, e);
        InternalStep(p, e);
        InternalIsNotBegin(e);
        var failed := WillFail(e);
        Perform(e);
        k := k + 1;
        if failed {
          return false;
        }
      }
      assert events[..k] == events;
      return true;
    }

    /** Whether the schedule fails at `e`. */
    method WillFail(e: Event) returns (failed: bool)
      ensures failed <==> Fails(State(), e)
    {
      failed := (e.Idle? || e.Crash?) && e.i < |workers| && Free(workers[e.i]) && workers[e.i].inCall
                && (e.Idle? ==> workers[e.i].stack == [] && tasks == []
                                && ((e.aged && running > minSize) || !Accepting(state)));
    }

    /**
     * `stop`: `first` is what happens in its first round, `script` what happens in the rounds of its
     * loop. Ok means that everything is done and everybody gone; an error means that a worker ended
     * inside a system call, and it leaves the pool as it was before `stop` or stopping for good.
     */
    method Stop(first: seq<Event>, script: seq<Schedule>) returns (r: StopResult, ghost n: nat)
      requires Valid() && (state == Stopped || (state == PoolCreated && !stopCalled))
      requires state == PoolCreated ==>
                 var p := Step(State(), StopBegin);
                 && AllAllowed(p, first) && (forall e <- first :: Internal(e))
                 && AllowedScript(Step(Run(p, first), StopTurn), script)
      modifies this
      ensures Valid() && (stopCalled && leaked == 0 && tasks != [] ==> workers != [])
      ensures old(state) == Stopped ==> r == Ok && State() == old(State())
      ensures old(state) == PoolCreated ==>
                var p := Step(old(State()), StopBegin);
                if Run(p, first).errors == p.errors
                then StopEnds(Step(Run(p, first), StopTurn), script, n, r, State())
                else r == ScheduleFailed && State() == Run(p, Performed(p, first))
      ensures r == Ok <==> state == Stopped
      ensures r == Ok ==> tasks == [] && running == 0 && workers == []
      ensures r == ScheduleFailed <==> errors > old(errors)
      ensures r == ScheduleFailed ==> (state == PoolCreated && !stopCalled) || (state == Stopping(false) && stopOver)
      ensures r == TimedOut || r == Unfinished ==> state == Stopping(false) && stopCalled
    {
      n := 0;
      PoolTheorems.StoppedIsEmpty(State());
      if state == Stopped {
        return Ok, n;
      }
      hide PoolTheorems.Inv, Step, Run, AllAllowed, Internal, AllowedScript, StopEnds, Performed;
      var ok := BeginStop(first);
      if !ok {
        PoolTheorems.StoppedIsEmpty(State());
        return ScheduleFailed, n;
      }
      r, n := StopLoop(script);
      PoolTheorems.StoppedIsEmpty(State());
    }

    /** The loop of `stop`. */
    method StopLoop(script: seq<Schedule>) returns (r: StopResult, ghost n: nat)
      requires Valid() && state == Stopping(false) && stopCalled && !stopOver
      requires AllowedScript(State(), script)
      modifies this
      ensures Valid()
      ensures StopEnds(old(State()), script, n, r, State())
      ensures r == Ok <==> state == Stopped
      ensures r != Ok ==> state == Stopping(false) && stopCalled
      ensures r == ScheduleFailed <==> errors > old(errors)
      ensures r == ScheduleFailed ==> stopOver
    {
      ghost var p := State();
      var k := 0;
      n := 0;
      assert script[0..] == script;
      assert GoesOn(p, script, 0) && Rounds(p, script, 0) == p;
      hide PoolTheorems.Inv, Step, Run, AllAllowed, Internal, Performed, Rounds, GoesOn, RoundEnds;
      while k < |script|
        invariant k == n <= |script| && Valid() && state == Stopping(false) && stopCalled && errors == old(errors)
        invariant !stopOver
        invariant State() == Rounds(p, script, k) && GoesOn(p, script, k)
        invariant AllowedScript(State(), script[k..])
      {
        var schedule := script[k];
        assert script[k..][0] == schedule && script[k..][1..] == script[k + 1..];
        r := StopRound(schedule);
        AfterRound(p, script, k, r, State());
        if r == Ok || r == ScheduleFailed {
          return;
        }
        if schedule.left == 0 {
          return TimedOut, n;
        }
        k, n := k + 1, n + 1;
      }
      return Unfinished, n;
    }

    /** The part of `stop` before its loop. */
    method BeginStop(first: seq<Event>) returns (ok: bool)
      requires Valid() && state == PoolCreated && !stopCalled
      requires AllAllowed(Step(State(), StopBegin), first) && forall e <- first :: Internal(e)
      modifies this
      ensures Valid()
      ensures ok ==> state == Stopping(false) && stopCalled && !stopOver && errors == old(errors)
      ensures var p := Step(old(State()), StopBegin);
              && (ok <==> Run(p, first).errors == p.errors)
              && State() == if ok then Step(Run(p, first), StopTurn) else Run(p, Performed(p, first))
      ensures !ok ==> state == PoolCreated && !stopCalled && errors > old(errors)
    {
      PoolTheorems.StoppedIsEmpty(State());
      assert PoolTheorems.Counted(State());
      hide PoolTheorems.Inv, Run, AllAllowed, Internal, Grown, Step, PoolTheorems.Counted, Performed;
      PoolTheorems.StepKeeps(State(), StopBegin);
      StopSteps(State());
      Grow(true);
      stopCalled := true;
      assert State() == Step(old(State()), StopBegin);
      ok := RunSchedule(first);
      if !ok {
        return;
      }
      PoolTheorems.StepKeeps(State(), StopTurn);
      StopSteps(State());
      assert state == PoolCreated;
      state := Stopping(false);
    }

    /** One round of the loop of `stop` and its test. */
    method StopRound(schedule: Schedule) returns (r: StopResult)
      requires Valid() && state == Stopping(false) && stopCalled && !stopOver
      requires AllAllowed(State(), RoundOf(schedule)) && forall e <- RoundOf(schedule) :: Internal(e)
      modifies this
      ensures Valid() && r != TimedOut
      ensures RoundEnds(old(State()), schedule, r, State())
      ensures r != ScheduleFailed ==> State() == Step(Run(old(State()), RoundOf(schedule)), StopCheck)
      ensures r != ScheduleFailed ==> stopCalled && !stopOver && errors == old(errors)
      ensures r == Ok <==> state == Stopped
      ensures r != Ok ==> state == Stopping(false) && stopCalled
      ensures r == ScheduleFailed ==> stopOver && errors > old(errors)
    {
      hide PoolTheorems.Inv, Run, AllAllowed, Internal, Step, Performed;
      var ok := RunSchedule(RoundOf(schedule));
      PoolTheorems.StoppedIsEmpty(State());
      if !ok {
        return ScheduleFailed;
      }
      PoolTheorems.StepKeeps(State(), StopCheck);
      CheckStep(State());
      if tasks == [] && running == 0 {
        state := Stopped;
        return Ok;
      }
      return Unfinished;
    }
  }

  lemma CheckStep(p: Pool)
    requires !p.broken && p.state == Stopping(false)
    ensures Step(p, StopCheck) ==
            if !p.stopOver && p.tasks == [] && p.running == 0 then p.(state := Stopped) else p
  {
  }

  lemma RunNone(p: Pool)
    ensures Run(p, []) == p
  {
  }

  lemma {:induction false} RunSplits(p: Pool, es: seq<Event>, e: Event)
    ensures Run(p, es + [e]) == Step(Run(p, es), e)
    decreases es
  {
    hide Step;
    if es == [] {
      assert es + [e] == [e] && [e][1..] == [];
      assert Run(p, [e]) == Run(Step(p, e), []);
    } else {
      assert (es + [e])[1..] == es[1..] + [e];
      RunSplits(Step(p, es[0]), es[1..], e);
    }
  }

  lemma AllowedSplits(p: Pool, e: Event, es: seq<Event>)
    ensures AllAllowed(p, [e] + es) <==> Allowed(p, e) && AllAllowed(Step(p, e), es)
  {
    assert ([e] + es)[1..] == es;
    hide Step, Allowed;
  }

  lemma InternalIsNotBegin(e: Event)
    requires Internal(e)
    ensures !e.StopBegin?
  {
  }
}
