// When a stopping pool can still come to a stop, and what happens to submissions that come too late.
module PoolShutdown {
  import opened Constants
  import opened PoolModel
  import opened PoolTheorems

  // ---------- when a stopping pool can stop ----------

  /** Idle, but its last task left it inside a system call: it fails when it retires. */
  predicate LeftInCall(w: Worker) {
    w.stack == [] && w.inCall
  }

  /**
   * Nothing has failed, waiting tasks have a worker, and if some worker was left inside a system call
   * there is still a task that may bring it out.
   */
  ghost predicate Savable(p: Pool) {
    && !p.stopOver && p.leaked == 0
    && (p.tasks != [] ==> p.workers != [])
    && ((exists w <- p.workers :: LeftInCall(w)) ==> p.tasks != [] || exists w <- p.workers :: w.stack != [])
  }

  /** Everybody is idle, nothing waits, and worker `j` was left inside a system call. */
  ghost predicate Deadlocked(p: Pool, j: nat) {
    && p.tasks == [] && j < |p.workers| && LeftInCall(p.workers[j])
    && forall i | 0 <= i < |p.workers| :: p.workers[i].stack == []
  }

  lemma DoomedIs(p: Pool) returns (j: nat)
    requires !Savable(p)
    ensures p.stopOver || p.leaked > 0 || (p.tasks != [] && p.workers == []) || Deadlocked(p, j)
  {
    j := 0;
    if !p.stopOver && p.leaked == 0 && (p.tasks != [] ==> p.workers != []) {
      var w :| w in p.workers && LeftInCall(w);
      j :| 0 <= j < |p.workers| && p.workers[j] == w;
      assert forall i | 0 <= i < |p.workers| :: p.workers[i] in p.workers;
    }
  }

  lemma IsDoomed(p: Pool, j: nat)
    requires p.stopOver || p.leaked > 0 || (p.tasks != [] && p.workers == []) || Deadlocked(p, j)
    ensures !Savable(p)
  {
    if Deadlocked(p, j) {
      assert p.workers[j] in p.workers;
    }
  }

  /** A deadlocked pool stays so, or fails. */
  lemma DeadlockStays(p: Pool, e: Event, j: nat)
    requires Deadlocked(p, j) && !Accepting(p.state) && OfWorker(e) && e.i < |p.workers|
    ensures var p' := WorkerStep(p, e);
            p'.stopOver || p'.leaked > 0 || Deadlocked(p', j) || (j > 0 && Deadlocked(p', j - 1))
  {
    if e.Idle? || e.Crash? {
      DeadlockGoes(p, e, j);
    }
  }

  lemma DeadlockGoes(p: Pool, e: Event, j: nat)
    requires Deadlocked(p, j) && !Accepting(p.state) && (e.Idle? || e.Crash?) && e.i < |p.workers|
    ensures var p' := WorkerStep(p, e);
            p'.stopOver || p'.leaked > 0 || Deadlocked(p', j) || (j > 0 && Deadlocked(p', j - 1))
  {
    if Free(p.workers[e.i]) && !p.workers[e.i].inCall {
      CleanGoes(p, e);
      DeadlockWithout(p, e.i, j, WorkerStep(p, e));
      hide WorkerStep;
    }
  }

  lemma CleanGoes(p: Pool, e: Event)
    requires p.tasks == [] && !Accepting(p.state) && (e.Idle? || e.Crash?) && e.i < |p.workers|
    requires Free(p.workers[e.i]) && !p.workers[e.i].inCall && p.workers[e.i].stack == []
    ensures WorkerStep(p, e).workers == Without(p.workers, e.i) && WorkerStep(p, e).tasks == []
  {
  }

  lemma DeadlockWithout(p: Pool, i: nat, j: nat, p': Pool)
    requires Deadlocked(p, j) && i < |p.workers| && !p.workers[i].inCall
    requires p'.workers == Without(p.workers, i) && p'.tasks == []
    ensures Deadlocked(p', j) || (j > 0 && Deadlocked(p', j - 1))
  {
    assert Deadlocked(p', if i < j then j - 1 else j);
  }

  lemma DoomedStep(p: Pool, e: Event)
    requires Sound(p) && p.state == Stopping(false) && !Savable(p) && Allowed(p, e)
    ensures Step(p, e).state == Stopping(false) && !Savable(Step(p, e))
  {
    var j := DoomedIs(p);
    var p' := Step(p, e);
    hide Savable, Accounted, Honest;
    StepLeaks(p, e);
    if p.stopOver || p.leaked > 0 {
      OverStays(p, e);
      IsDoomed(p', 0);
    } else if p.tasks != [] && p.workers == [] {
      IsDoomed(p', 0);
    } else if OfWorker(e) && e.i < |p.workers| {
      DeadlockStays(p, e, j);
      WorkerCounts(p, e);
      hide WorkerStep, Deadlocked;
      IsDoomed(p', if p'.stopOver || p'.leaked > 0 || Deadlocked(p', j) then j else j - 1);
    } else {
      assert Deadlocked(p', j);
      IsDoomed(p', j);
    }
  }

  /** A failed `stop` is over, and a miscounted pool never counts down to 0. */
  lemma OverStays(p: Pool, e: Event)
    requires Counted(p) && p.state == Stopping(false) && (p.stopOver || p.leaked > 0)
    ensures Step(p, e).state == Stopping(false) && (p.stopOver ==> Step(p, e).stopOver)
  {
  }

  lemma {:induction false} NeverStops(p: Pool, es: seq<Event>)
    requires Sound(p) && p.state == Stopping(false) && !Savable(p) && AllAllowed(p, es)
    ensures Run(p, es).state == Stopping(false)
    decreases es
  {
    if es != [] {
      DoomedStep(p, es[0]);
      StepSound(p, es[0]);
      hide Sound, Savable, Step;
      NeverStops(Step(p, es[0]), es[1..]);
    }
  }

  // ---------- the way to a stop ----------

  function PauseOf(w: Worker): nat {
    (if w.parked then 1 else 0) + (if w.blocked then 1 else 0)
  }

  function LeftOf(w: Worker): nat {
    if LeftInCall(w) then 1 else 0
  }

  function LoadOf(w: Worker): nat {
    |w.stack| + if w.inCall then 1 else 0
  }

  /** What is left to do: finish what has begun, run what waits, retire the workers. */
  function Work(p: Pool): nat {
    Sum(p.workers, LoadOf) + 3 * |p.tasks| + |p.workers|
  }

  lemma {:induction false} SumFinds(ws: seq<Worker>, f: Worker -> nat) returns (i: nat)
    requires Sum(ws, f) > 0
    ensures i < |ws| && f(ws[i]) > 0
    decreases ws
  {
    if f(ws[0]) > 0 {
      i := 0;
    } else {
      i := SumFinds(ws[1..], f);
      i := i + 1;
    }
  }

  lemma SumIsZero(ws: seq<Worker>, f: Worker -> nat)
    requires Sum(ws, f) == 0
    ensures forall i | 0 <= i < |ws| :: f(ws[i]) == 0
  {
    forall i | 0 <= i < |ws| ensures f(ws[i]) == 0 {
      SumWithout(ws, i, f);
    }
  }

  function MaxLen(names: seq<Name>): (m: nat)
    ensures forall n <- names :: |n| <= m
  {
    if names == [] then 0
    else var m := MaxLen(names[1..]); if |names[0]| > m then |names[0]| else m
  }

  lemma NewName(names: seq<Name>) returns (n: Name)
    ensures n !in names
  {
    n := seq(MaxLen(names) + 1, _ => 'x');
  }

  /** A pool on its way to a stop. */
  ghost predicate OnTheWay(p: Pool) {
    Sound(p) && p.state == Stopping(false) && Savable(p)
  }

  /** The parked and the blocked are brought back. */
  lemma Rouse(p: Pool) returns (e: Event)
    requires OnTheWay(p) && Sum(p.workers, PauseOf) > 0
    ensures Allowed(p, e) && OnTheWay(Step(p, e)) && Sum(Step(p, e).workers, PauseOf) < Sum(p.workers, PauseOf)
  {
    var i := SumFinds(p.workers, PauseOf);
    var w := p.workers[i];
    e := if w.parked then Wake(i) else Unblock(i);
    var w' := if w.parked then w.(parked := false) else w.(blocked := false);
    SumUpdate(p.workers, i, w', PauseOf);
    StepSound(p, e);
    SameStacks(p, Step(p, e), i, w');
    hide Sound, Savable;
  }

  lemma SameStacks(p: Pool, p': Pool, i: nat, w': Worker)
    requires Savable(p) && i < |p.workers| && p'.workers == p.workers[i := w']
    requires w'.stack == p.workers[i].stack && w'.inCall == p.workers[i].inCall
    requires p'.tasks == p.tasks && p'.stopOver == p.stopOver && p'.leaked == p.leaked
    ensures Savable(p')
  {
    if w :| w in p'.workers && LeftInCall(w) {
      var k :| 0 <= k < |p'.workers| && p'.workers[k] == w;
      assert p.workers[k] in p.workers && LeftInCall(p.workers[k]);
      if v :| v in p.workers && v.stack != [] {
        var m :| 0 <= m < |p.workers| && p.workers[m] == v;
        assert p'.workers[m] in p'.workers && p'.workers[m].stack != [];
      }
    }
  }

  /** A worker left inside a system call is given a task, newly submitted if need be. */
  lemma Occupy(p: Pool) returns (es: seq<Event>)
    requires OnTheWay(p) && Sum(p.workers, PauseOf) == 0 && Sum(p.workers, LeftOf) > 0
    ensures AllAllowed(p, es) && OnTheWay(Run(p, es))
    ensures Sum(Run(p, es).workers, PauseOf) == 0 && Sum(Run(p, es).workers, LeftOf) < Sum(p.workers, LeftOf)
  {
    SumIsZero(p.workers, PauseOf);
    var i := SumFinds(p.workers, LeftOf);
    var p1 := p;
    es := [];
    if p.tasks == [] {
      assert p.workers[i] in p.workers;
      var v :| v in p.workers && v.stack != [];
      var j :| 0 <= j < |p.workers| && p.workers[j] == v;
      var n := NewName(p.submitted);
      var e := Submit(n, Some(j));
      assert PauseOf(p.workers[j]) == 0;
      assert Allowed(p, e);
      StepSound(p, e);
      p1 := Step(p, e);
      es := [e];
    }
    assert PauseOf(p.workers[i]) == 0;
    StepSound(p1, Begin(i));
    var p2 := Step(p1, Begin(i));
    Occupied(p1, i);
    hide Sound, Savable, Step, Sum;
    RunOne(p1, Begin(i), []);
    if es == [] {
      es := [Begin(i)];
      assert [Begin(i)] + [] == es;
    } else {
      RunOne(p, es[0], [Begin(i)]);
      es := es + [Begin(i)];
    }
  }

  lemma Occupied(p: Pool, i: nat)
    requires !p.broken && p.tasks != [] && i < |p.workers| && Free(p.workers[i]) && LeftInCall(p.workers[i])
    requires !p.stopOver && p.leaked == 0 && Sum(p.workers, PauseOf) == 0
    ensures var p' := Step(p, Begin(i));
            && p'.state == p.state && Savable(p')
            && Sum(p'.workers, PauseOf) == 0 && Sum(p'.workers, LeftOf) < Sum(p.workers, LeftOf)
  {
    var w := p.workers[i].(stack := [p.tasks[0]] + p.workers[i].stack);
    var p' := Step(p, Begin(i));
    SumUpdate(p.workers, i, w, PauseOf);
    SumUpdate(p.workers, i, w, LeftOf);
    assert p'.workers[i] in p'.workers && p'.workers[i].stack != [];
  }

  lemma RunOne(p: Pool, e: Event, es: seq<Event>)
    ensures Run(p, [e] + es) == Run(Step(p, e), es)
    ensures AllAllowed(p, [e] + es) <==> Allowed(p, e) && AllAllowed(Step(p, e), es)
    ensures Run(p, []) == p && AllAllowed(p, [])
  {
    assert ([e] + es)[1..] == es;
  }

  /** Nobody is held up and nobody was left inside a system call. */
  ghost predicate Clear(p: Pool) {
    && !p.broken && p.state == Stopping(false) && !p.stopOver && p.leaked == 0
    && (p.tasks != [] ==> p.workers != [])
    && Sum(p.workers, PauseOf) == 0 && Sum(p.workers, LeftOf) == 0
  }

  /** The first worker goes on. */
  lemma Proceed(p: Pool) returns (e: Event)
    requires Clear(p) && p.workers != []
    ensures Allowed(p, e) && (Step(p, e).broken || Clear(Step(p, e))) && Work(Step(p, e)) < Work(p)
  {
    var w := p.workers[0];
    SumIsZero(p.workers, PauseOf);
    SumIsZero(p.workers, LeftOf);
    assert PauseOf(w) == 0 && LeftOf(w) == 0;
    if w.stack != [] {
      e := if w.inCall then Cross(0, false) else Finish(0, Value(None));
      GoesOn(p, e);
    } else if p.tasks != [] {
      e := Begin(0);
      Replaced(p, w.(stack := [p.tasks[0]] + w.stack));
    } else {
      e := Idle(0, false, false);
      Leaves(p);
    }
  }

  lemma GoesOn(p: Pool, e: Event)
    requires Clear(p) && p.workers != [] && Busy(p.workers[0])
    requires e == if p.workers[0].inCall then Cross(0, false) else Finish(0, Value(None))
    ensures (Step(p, e).broken || Clear(Step(p, e))) && Work(Step(p, e)) < Work(p)
  {
    var w := p.workers[0];
    Replaced(p, if w.inCall then w.(inCall := false) else w.(stack := w.stack[1..]));
  }

  lemma Leaves(p: Pool)
    requires Clear(p) && p.workers != [] && p.tasks == []
    requires Free(p.workers[0]) && p.workers[0].stack == [] && !p.workers[0].inCall
    ensures Clear(Step(p, Idle(0, false, false))) && Work(Step(p, Idle(0, false, false))) < Work(p)
  {
    var p' := Step(p, Idle(0, false, false));
    assert p'.workers == p.workers[1..] by {
      hide Sum;
    }
  }

  lemma Replaced(p: Pool, w: Worker)
    requires p.workers != []
    ensures var ws := p.workers[0 := w];
            && Sum(ws, PauseOf) - PauseOf(w) == Sum(p.workers, PauseOf) - PauseOf(p.workers[0])
            && Sum(ws, LeftOf) - LeftOf(w) == Sum(p.workers, LeftOf) - LeftOf(p.workers[0])
            && Sum(ws, LoadOf) - LoadOf(w) == Sum(p.workers, LoadOf) - LoadOf(p.workers[0])
  {
    SumUpdate(p.workers, 0, w, PauseOf);
    SumUpdate(p.workers, 0, w, LeftOf);
    SumUpdate(p.workers, 0, w, LoadOf);
  }

  lemma NobodyLeft(p: Pool)
    requires Sum(p.workers, LeftOf) == 0 && !p.stopOver && p.leaked == 0 && (p.tasks != [] ==> p.workers != [])
    ensures Savable(p)
  {
    SumIsZero(p.workers, LeftOf);
    forall w <- p.workers ensures !LeftInCall(w) {
      var i :| 0 <= i < |p.workers| && p.workers[i] == w;
      assert LeftOf(p.workers[i]) == 0;
    }
  }

  lemma {:induction false} CanStop(p: Pool) returns (es: seq<Event>)
    requires OnTheWay(p)
    ensures AllAllowed(p, es) && Run(p, es).state == Stopped
    decreases Sum(p.workers, PauseOf), Sum(p.workers, LeftOf), Work(p)
  {
    if Sum(p.workers, PauseOf) > 0 {
      var e := Rouse(p);
      hide OnTheWay, Step, Sum;
      var rest := CanStop(Step(p, e));
      RunOne(p, e, rest);
      es := [e] + rest;
    } else if Sum(p.workers, LeftOf) > 0 {
      var first := Occupy(p);
      hide OnTheWay, Step, Sum;
      var rest := CanStop(Run(p, first));
      RunConcat(p, first, rest);
      es := first + rest;
    } else if p.workers == [] {
      es := [StopCheck];
      RunOne(p, StopCheck, []);
      assert [StopCheck] + [] == es;
    } else {
      assert Clear(p);
      var e := Proceed(p);
      StepSound(p, e);
      NobodyLeft(Step(p, e));
      var rest := CanStop(Step(p, e));
      hide Step;
      RunOne(p, e, rest);
      es := [e] + rest;
    }
  }

  lemma {:induction false} RunConcat(p: Pool, a: seq<Event>, b: seq<Event>)
    ensures Run(p, a + b) == Run(Run(p, a), b)
    ensures AllAllowed(p, a + b) <==> AllAllowed(p, a) && AllAllowed(Run(p, a), b)
    decreases a
  {
    if a == [] {
      assert a + b == b;
    } else {
      assert (a + b)[1..] == a[1..] + b && (a + b)[0] == a[0];
      hide Step, Allowed;
      RunConcat(Step(p, a[0]), a[1..], b);
    }
  }

  ghost predicate StopsBy(p: Pool, es: seq<Event>) {
    AllAllowed(p, es) && Run(p, es).state == Stopped
  }

  /**
   * A stopping pool can come to a successful stop if and only if no schedule has failed, no worker
   * has crashed inside a system call, waiting tasks have a worker, and it is not the case that
   * everybody is idle with some worker left inside a system call.
   */
  lemma CanStopIff(p: Pool)
    requires Sound(p) && p.state == Stopping(false)
    ensures (exists es :: StopsBy(p, es)) <==> Savable(p)
  {
    if Savable(p) {
      var es := CanStop(p);
      assert StopsBy(p, es);
    } else if es :| StopsBy(p, es) {
      NeverStops(p, es);
    }
  }

  /**
   * An idle worker left inside a system call: if it is to retire, the schedule fails; if it steps
   * aside or the blocker delays it, it is parked, and only `try_resume` or a deadline entry left over from
   * an earlier wait brings it back; a blocker that does not yield
   * leaves it as it was.
   */
  lemma IdleLeftInCall(p: Pool, i: nat, aged: bool, delays: bool)
    requires Reachable(p) && p.tasks == [] && i < |p.workers| && Free(p.workers[i]) && LeftInCall(p.workers[i])
    ensures var p' := Step(p, Idle(i, aged, delays));
            && (p'.errors == p.errors + 1 <==> Recycles(p, aged))
            && (Recycles(p, aged) ==> |p'.workers| == |p.workers| - 1)
            && (!Recycles(p, aged) ==>
                  && i < |p'.workers| && LeftInCall(p'.workers[i])
                  && (p'.workers[i].parked <==> p.popFails + 1 < p.running || delays))
  {
    ReachableInv(p);
    hide Sound;
  }

  /** A task leaves its worker inside a system call, and the pool is stopped. */
  function Trace(n: Name): seq<Event> {
    [Submit(n, None), Round] + [Begin(0), Cross(0, true)] + [Finish(0, Value(None)), StopBegin, StopTurn]
  }

  const STUCK := Worker([], true, false, false)

  lemma TraceRuns(n: Name)
    ensures var p := Run(Fresh(0, 1), Trace(n));
            && AllAllowed(Fresh(0, 1), Trace(n))
            && p.workers == [STUCK] && p.tasks == [] && p.state == Stopping(false) && !p.broken
  {
    var first, second := [Submit(n, None), Round], [Begin(0), Cross(0, true)];
    var third := [Finish(0, Value(None)), StopBegin, StopTurn];
    var p1 := Run(Fresh(0, 1), first);
    var p2 := Run(p1, second);
    OneSubmitted(n);
    BeginsOne(p1, n, []);
    TraceEnds(p2, n);
    hide Run, AllAllowed, Step;
    RunConcat(Fresh(0, 1), first, second);
    RunConcat(Fresh(0, 1), first + second, third);
  }

  lemma OneSubmitted(n: Name)
    ensures var es := [Submit(n, None), Round];
            var p := Run(Fresh(0, 1), es);
            && AllAllowed(Fresh(0, 1), es) && !p.broken && p.state == PoolCreated && !p.stopCalled
            && p.tasks == [n] && p.workers == [NEWCOMER] && p.results == map[]
  {
    var p0 := Fresh(0, 1);
    var p1 := Step(p0, Submit(n, None));
    RunOne(p1, Round, []);
    RunOne(p0, Submit(n, None), [Round]);
    assert [Round] + [] == [Round];
  }

  lemma BeginsOne(p: Pool, n: Name, rest: seq<Name>)
    requires !p.broken && p.tasks == [n] + rest && p.workers == [NEWCOMER]
    ensures var es := [Begin(0), Cross(0, true)];
            && AllAllowed(p, es)
            && Run(p, es) == p.(tasks := rest, started := p.started + [n], workers := [Worker([n], true, false, false)])
  {
    var p1 := Step(p, Begin(0));
    assert ([n] + rest)[1..] == rest && [n] + NEWCOMER.stack == [n];
    assert p1 == p.(tasks := rest, started := p.started + [n], workers := [Worker([n], false, false, false)]);
    RunOne(p1, Cross(0, true), []);
    RunOne(p, Begin(0), [Cross(0, true)]);
    assert [Cross(0, true)] + [] == [Cross(0, true)];
  }

  lemma TraceEnds(p: Pool, n: Name)
    requires !p.broken && p.state == PoolCreated && !p.stopCalled && p.tasks == [] && n !in p.results
    requires p.workers == [Worker([n], true, false, false)]
    ensures var es := [Finish(0, Value(None)), StopBegin, StopTurn];
            var p' := Run(p, es);
            AllAllowed(p, es) && p'.workers == [STUCK] && p'.tasks == [] && p'.state == Stopping(false) && !p'.broken
  {
    var p1 := Step(p, Finish(0, Value(None)));
    assert [n][1..] == [];
    assert p1.workers == [STUCK] && p1.tasks == [] && !p1.broken && p1.state == PoolCreated && !p1.stopCalled;
    StopsAtOnce(p1);
    hide Step;
    RunOne(p, Finish(0, Value(None)), [StopBegin, StopTurn]);
  }

  lemma StopsAtOnce(p: Pool)
    requires !p.broken && p.state == PoolCreated && !p.stopCalled && p.tasks == []
    ensures Run(p, [StopBegin, StopTurn]) == p.(stopCalled := true, state := Stopping(false))
    ensures AllAllowed(p, [StopBegin, StopTurn])
  {
    var p1 := Step(p, StopBegin);
    RunOne(p1, StopTurn, []);
    RunOne(p, StopBegin, [StopTurn]);
    assert [StopTurn] + [] == [StopTurn];
  }

  /** The failing trace: the pool is then never stopped, and the attempt of its worker to retire fails the schedule. */
  lemma LeftInCallNeverStops(n: Name, es: seq<Event>)
    requires AllAllowed(Run(Fresh(0, 1), Trace(n)), es)
    ensures var p := Run(Fresh(0, 1), Trace(n));
            && Reachable(p) && Run(p, es).state == Stopping(false)
            && Step(p, Idle(0, false, false)).errors == p.errors + 1
  {
    TraceRuns(n);
    var p := Run(Fresh(0, 1), Trace(n));
    hide Run, AllAllowed;
    assert IsRun(0, 1, Trace(n), p);
    ReachableInv(p);
    IdleLeftInCall(p, 0, false, false);
    assert Deadlocked(p, 0);
    IsDoomed(p, 0);
    NeverStops(p, es);
  }

  // ---------- submissions that come after `stop` has begun ----------

  /** A task and no worker once the pool is stopping: no run gets the task started or the pool stopped. */
  lemma {:induction false} StrandedForGood(p: Pool, es: seq<Event>)
    requires !Accepting(p.state) && p.tasks != [] && p.workers == []
    ensures Run(p, es).state == p.state && p.tasks <= Run(p, es).tasks
    ensures Run(p, es).workers == [] && Run(p, es).started == p.started
    decreases es
  {
    if es != [] {
      StrandedForGood(Step(p, es[0]), es[1..]);
    }
  }

  /** The pool after a submission from outside and, if it is still to come, the state change of `stop`. */
  function AfterLate(p: Pool, n: Name): Pool {
    Step(Step(p, Submit(n, None)), StopTurn)
  }

  ghost predicate ServedBy(p: Pool, n: Name, es: seq<Event>) {
    AllAllowed(p, es) && n in Run(p, es).started
  }

  /** A free worker takes the tasks one after another. */
  lemma {:induction false} TakesAll(p: Pool, n: Name) returns (es: seq<Event>)
    requires !p.broken && p.workers != [] && Free(p.workers[0]) && n in p.tasks
    ensures ServedBy(p, n, es)
    decreases |p.tasks|
  {
    var p' := Step(p, Begin(0));
    if p.tasks[0] == n {
      es := [Begin(0)];
      RunOne(p, Begin(0), []);
      assert [Begin(0)] + [] == es;
      assert p'.started[|p.started|] == n;
    } else {
      assert p.tasks == [p.tasks[0]] + p.tasks[1..];
      var rest := TakesAll(p', n);
      RunOne(p, Begin(0), rest);
      es := [Begin(0)] + rest;
    }
  }

  lemma Serves(p: Pool, n: Name) returns (es: seq<Event>)
    requires !p.broken && p.workers != [] && n in p.tasks
    ensures ServedBy(p, n, es)
  {
    var p1 := Step(p, Wake(0));
    var p2 := Step(p1, Unblock(0));
    var rest := TakesAll(p2, n);
    RunOne(p1, Unblock(0), rest);
    RunOne(p, Wake(0), [Unblock(0)] + rest);
    es := [Wake(0)] + ([Unblock(0)] + rest);
  }

  lemma LateIs(p: Pool, n: Name)
    requires Inv(p) && p.stopCalled && n !in p.submitted
    ensures var p' := AfterLate(p, n);
            && Sound(p') && !Accepting(p'.state) && p'.workers == p.workers && p'.tasks == p.tasks + [n]
            && p'.state == (if p.state == Stopped then Stopped else p'.state)
            && (p.state == PoolCreated || p.state == Stopping(false) ==> p'.state == Stopping(false))
            && p'.stopOver == p.stopOver && p'.leaked == p.leaked && n !in p'.started
  {
    var p1 := Step(p, Submit(n, None));
    StepSound(p, Submit(n, None));
    StepSound(p1, StopTurn);
    assert Placed(p, n);
    OccIn(p.submitted, n);
    OccIn(p.started, n);
    hide Sound, Placed, Occ;
  }

  /**
   * A task submitted from outside after `stop` has begun, be it before the state change, while
   * stopping or when stopped, can still be run if and only if there is a worker.
   */
  lemma LateSubmissionServedIff(p: Pool, n: Name)
    requires Reachable(p) && p.stopCalled && n !in p.submitted
    ensures (exists es :: ServedBy(AfterLate(p, n), n, es)) <==> p.workers != []
  {
    ReachableInv(p);
    LateIs(p, n);
    var p' := AfterLate(p, n);
    hide Inv, Sound, AfterLate;
    assert p'.tasks[|p.tasks|] == n;
    if p.workers != [] {
      var es := Serves(p', n);
    } else if es :| ServedBy(p', n, es) {
      StrandedForGood(p', es);
    }
  }

  /** And the pool can still stop if and only if, besides, nothing has failed so far. */
  lemma LateSubmissionStopsIff(p: Pool, n: Name)
    requires Reachable(p) && p.stopCalled && p.state != Stopped && n !in p.submitted
    ensures (exists es :: StopsBy(AfterLate(p, n), es)) <==> p.workers != [] && !p.stopOver && p.leaked == 0
  {
    ReachableInv(p);
    LateIs(p, n);
    CanStopIff(AfterLate(p, n));
    hide Inv, Sound, AfterLate;
  }

  /** Without a worker the late task waits for ever. */
  lemma LateSubmissionIsStranded(p: Pool, n: Name, es: seq<Event>)
    requires Reachable(p) && p.stopCalled && p.workers == [] && n !in p.submitted
    ensures var p' := Run(AfterLate(p, n), es);
            n in p'.tasks && n !in p'.started && p'.state == AfterLate(p, n).state
  {
    ReachableInv(p);
    LateIs(p, n);
    var p1 := AfterLate(p, n);
    hide Inv, Sound, AfterLate;
    assert p1.tasks[|p.tasks|] == n;
    StrandedForGood(p1, es);
    assert Run(p1, es).tasks[|p.tasks|] == n;
  }

  /** One input: a submission between the first round of `stop` and its state change. */
  lemma WindowSubmissionIsStranded(n: Name, es: seq<Event>)
    ensures Reachable(Run(Fresh(0, 1), [StopBegin]))
    ensures n in Run(AfterLate(Run(Fresh(0, 1), [StopBegin]), n), es).tasks
  {
    var p := Step(Fresh(0, 1), StopBegin);
    RunOne(Fresh(0, 1), StopBegin, []);
    assert [StopBegin] + [] == [StopBegin];
    assert IsRun(0, 1, [StopBegin], p);
    assert p.stopCalled && p.workers == [] && p.submitted == [];
    LateSubmissionIsStranded(p, n, es);
  }

  /** Another: every submission to a pool that has stopped. */
  lemma StoppedSubmissionIsStranded(p: Pool, n: Name, es: seq<Event>)
    requires Reachable(p) && p.state == Stopped && n !in p.submitted
    ensures n in Run(Step(p, Submit(n, None)), es).tasks
  {
    ReachableInv(p);
    StoppedIsEmpty(p);
    var p1 := Step(p, Submit(n, None));
    assert p1.tasks[|p.tasks|] == n;
    StrandedForGood(p1, es);
    assert Run(p1, es).tasks[|p.tasks|] == n;
  }

  /** A crash inside a system call strands the tasks that wait: nobody replaces the only worker of a stopping pool. */
  lemma CrashInCallStrands(p: Pool, es: seq<Event>)
    requires Reachable(p) && !Accepting(p.state) && p.tasks != []
    requires |p.workers| == 1 && Free(p.workers[0]) && p.workers[0].inCall
    ensures var p' := Run(Step(p, Crash(0)), es);
            p.tasks <= p'.tasks && p'.workers == [] && p'.state == p.state
  {
    ReachableInv(p);
    var p1 := Step(p, Crash(0));
    assert p1.workers == [];
    StrandedForGood(p1, es);
  }

  /** The trace above reaches such a crash: `running` stays 1 although nobody is left. */
  lemma MiscountIsReached(n: Name)
    ensures var p := Run(Fresh(0, 1), Trace(n));
            && Reachable(p) && |p.workers| == 1
            && Step(p, Crash(0)).running == 1 && Step(p, Crash(0)).workers == []
  {
    TraceRuns(n);
    var p := Run(Fresh(0, 1), Trace(n));
    FreshInv(0, 1);
    RunKeeps(Fresh(0, 1), Trace(n));
    assert Fresh(0, 1).maxSize == 1;
    hide Run, AllAllowed;
    assert IsRun(0, 1, Trace(n), p);
    LiveCount(p);
    CrashInCallMiscounts(p, 0);
  }

  /** With one live worker and at most one allowed, the count is 1. */
  lemma LiveCount(p: Pool)
    requires Inv(p) && p.maxSize == 1 && |p.workers| == 1
    ensures p.running == 1
  {
  }

  /** The worker runs task `a` inside a system call, task `b` waits, and the pool is stopped. */
  function BusyTrace(a: Name, b: Name): seq<Event> {
    [Submit(a, None), Submit(b, None), Round] + [Begin(0), Cross(0, true)] + [StopBegin, StopTurn]
  }

  lemma BusyTraceRuns(a: Name, b: Name)
    requires a != b
    ensures var p := Run(Fresh(0, 1), BusyTrace(a, b));
            && AllAllowed(Fresh(0, 1), BusyTrace(a, b)) && p.state == Stopping(false)
            && p.tasks == [b] && p.workers == [Worker([a], true, false, false)]
  {
    var first, second, third := [Submit(a, None), Submit(b, None), Round], [Begin(0), Cross(0, true)], [StopBegin, StopTurn];
    var p1 := Run(Fresh(0, 1), first);
    var p2 := Run(p1, second);
    TwoSubmitted(a, b);
    assert [a, b] == [a] + [b];
    BeginsOne(p1, a, [b]);
    StopsBusy(p2);
    hide Run, AllAllowed, Step;
    RunConcat(Fresh(0, 1), first, second);
    RunConcat(Fresh(0, 1), first + second, third);
  }

  lemma TwoSubmitted(a: Name, b: Name)
    requires a != b
    ensures var es := [Submit(a, None), Submit(b, None), Round];
            var p := Run(Fresh(0, 1), es);
            && AllAllowed(Fresh(0, 1), es) && !p.broken && p.state == PoolCreated && !p.stopCalled
            && p.tasks == [a, b] && p.workers == [NEWCOMER] && p.running == 1 && p.maxSize == 1
  {
    var p0 := Fresh(0, 1);
    var p1 := Step(p0, Submit(a, None));
    var p2 := Step(p1, Submit(b, None));
    var p3 := Step(p2, Round);
    assert p1.submitted == [a] && p2.tasks == [a, b];
    RunOne(p2, Round, []);
    RunOne(p1, Submit(b, None), [Round]);
    RunOne(p0, Submit(a, None), [Submit(b, None), Round]);
    assert [Round] + [] == [Round];
  }

  lemma StopsBusy(p: Pool)
    requires !p.broken && p.state == PoolCreated && !p.stopCalled && p.running >= p.maxSize
    ensures Run(p, [StopBegin, StopTurn]) == p.(stopCalled := true, state := Stopping(false))
    ensures AllAllowed(p, [StopBegin, StopTurn])
  {
    var p1 := Step(p, StopBegin);
    RunOne(p1, StopTurn, []);
    RunOne(p, StopBegin, [StopTurn]);
    assert [StopTurn] + [] == [StopTurn];
  }

  /** That pool is reachable, so a crash of its worker does strand task `b`. */
  lemma StrandingIsReached(a: Name, b: Name, es: seq<Event>)
    requires a != b
    ensures var p := Run(Fresh(0, 1), BusyTrace(a, b));
            Reachable(p) && b in Run(Step(p, Crash(0)), es).tasks
  {
    BusyTraceRuns(a, b);
    var p := Run(Fresh(0, 1), BusyTrace(a, b));
    hide BusyTrace, AllAllowed;
    assert IsRun(0, 1, BusyTrace(a, b), p);
    CrashInCallStrands(p, es);
    assert p.tasks[0] == b;
    assert Run(Step(p, Crash(0)), es).tasks[0] == b;
  }
}
