// What every run of the pool keeps: the worker count, the place of every task, and no stranded task.
module PoolTheorems {
  import opened Constants
  import opened PoolModel

  // ---------- counting names ----------

  function Occ(s: seq<Name>, n: Name): nat {
    if s == [] then 0 else (if s[0] == n then 1 else 0) + Occ(s[1..], n)
  }

  lemma {:induction false} OccConcat(a: seq<Name>, b: seq<Name>, n: Name)
    ensures Occ(a + b, n) == Occ(a, n) + Occ(b, n)
    decreases a
  {
    if a == [] {
      assert a + b == b;
    } else {
      assert (a + b)[1..] == a[1..] + b;
      OccConcat(a[1..], b, n);
    }
  }

  lemma {:induction false} OccIn(s: seq<Name>, n: Name)
    ensures n in s <==> Occ(s, n) > 0
    decreases s
  {
    if s != [] {
      OccIn(s[1..], n);
    }
  }

  /** The sum of `f` over all workers. */
  function Sum(ws: seq<Worker>, f: Worker -> nat): nat {
    if ws == [] then 0 else f(ws[0]) + Sum(ws[1..], f)
  }

  lemma {:induction false} SumConcat(a: seq<Worker>, b: seq<Worker>, f: Worker -> nat)
    ensures Sum(a + b, f) == Sum(a, f) + Sum(b, f)
    decreases a
  {
    if a == [] {
      assert a + b == b;
    } else {
      assert (a + b)[1..] == a[1..] + b;
      SumConcat(a[1..], b, f);
    }
  }

  lemma {:induction false} SumWithout(ws: seq<Worker>, i: nat, f: Worker -> nat)
    requires i < |ws|
    ensures Sum(ws, f) == Sum(Without(ws, i), f) + f(ws[i])
    decreases ws
  {
    if i == 0 {
      assert Without(ws, i) == ws[1..];
    } else {
      assert Without(ws, i)[1..] == Without(ws[1..], i - 1);
      SumWithout(ws[1..], i - 1, f);
    }
  }

  lemma SumUpdate(ws: seq<Worker>, i: nat, w: Worker, f: Worker -> nat)
    requires i < |ws|
    ensures Sum(ws[i := w], f) - f(w) == Sum(ws, f) - f(ws[i])
  {
    SumWithout(ws, i, f);
    SumWithout(ws[i := w], i, f);
    assert Without(ws[i := w], i) == Without(ws, i);
  }

  lemma SumSnoc(ws: seq<Worker>, w: Worker, f: Worker -> nat)
    ensures Sum(ws + [w], f) == Sum(ws, f) + f(w)
  {
    SumConcat(ws, [w], f);
  }

  function Holds(n: Name): Worker -> nat {
    (w: Worker) => Occ(w.stack, n)
  }

  /** How often task `n` is begun and not finished. */
  function OnWorkers(ws: seq<Worker>, n: Name): nat {
    Sum(ws, Holds(n))
  }

  /** How often the result of `n` was handed out. */
  function HandedOut(taken: seq<(Name, Outcome)>, n: Name): nat {
    if taken == [] then 0
    else HandedOut(taken[..|taken| - 1], n) + if taken[|taken| - 1].0 == n then 1 else 0
  }

  function Stored(results: map<Name, Outcome>, n: Name): nat {
    if n in results then 1 else 0
  }

  /** A task that has begun is on a worker, in the result table, handed out, or lost with its worker. */
  ghost predicate Placed(p: Pool, n: Name) {
    && Occ(p.started, n) ==
       OnWorkers(p.workers, n) + Stored(p.results, n) + HandedOut(p.taken, n) + Occ(p.lost, n)
    && Occ(p.submitted, n) == Occ(p.tasks, n) + Occ(p.started, n)
  }

  ghost predicate Accounted(p: Pool) {
    forall n :: Placed(p, n) && Occ(p.submitted, n) <= 1
  }

  /** Results are what the tasks gave. */
  ghost predicate Honest(p: Pool) {
    && (forall n <- p.results :: n in p.outcomes && p.results[n] == p.outcomes[n])
    && (forall i | 0 <= i < |p.taken| :: p.taken[i].0 in p.outcomes && p.taken[i].1 == p.outcomes[p.taken[i].0])
    && (forall n <- p.outcomes :: n in p.results || HandedOut(p.taken, n) > 0)
  }

  /** The count is right but for the workers that crashed inside a system call. */
  ghost predicate Counted(p: Pool) {
    p.running == |p.workers| + p.leaked <= p.maxSize
  }

  /** The pool has no thread of its own once `stop` has begun, and `stop` is over only after the state change. */
  ghost predicate Phased(p: Pool) {
    && (Accepting(p.state) ==> !p.stopOver)
    && (!Accepting(p.state) ==> p.stopCalled)
    && (p.stopCalled ==> p.state != PoolRunning && p.state != Stopping(true))
  }

  /** What holds even if outsiders submit after `stop` has begun. */
  ghost predicate Sound(p: Pool) {
    !p.broken && Counted(p) && Phased(p) && Accounted(p) && Honest(p)
  }

  ghost predicate NotStranded(p: Pool) {
    && (p.stopCalled && p.leaked == 0 && p.tasks != [] ==> p.workers != [])
    && (p.state == Stopped ==> p.tasks == [] && p.running == 0)
  }

  ghost predicate Inv(p: Pool) {
    Sound(p) && NotStranded(p)
  }

  // ---------- the worker count and stranding ----------

  /** The sizes and the phase stay, and the count stays right. */
  ghost predicate Steady(p: Pool, p': Pool) {
    Counted(p') && Phased(p') && p'.state == p.state && p'.minSize == p.minSize && p'.maxSize == p.maxSize
  }

  lemma WorkerCounts(p: Pool, e: Event)
    requires Counted(p) && Phased(p) && OfWorker(e) && e.i < |p.workers|
    ensures Steady(p, WorkerStep(p, e))
  {
    assert Steady(p, p);
    if e.Idle? {
      IdledCounts(p, e.i, e.aged, e.delays);
      hide Steady, Idled;
    } else if e.Crash? {
      CrashedCounts(p, e.i);
      hide Steady, Crashed;
    } else {
      hide Yielded;
    }
  }

  lemma IdledCounts(p: Pool, i: nat, aged: bool, delays: bool)
    requires Counted(p) && Phased(p) && i < |p.workers|
    ensures Steady(p, Idled(p, i, aged, delays))
  {
    hide Yielded, Retired;
  }

  lemma CrashedCounts(p: Pool, i: nat)
    requires Counted(p) && Phased(p) && i < |p.workers|
    ensures Steady(p, Crashed(p, i))
  {
    hide Grown;
  }

  lemma StepCounts(p: Pool, e: Event)
    requires Counted(p) && Phased(p) && Promised(p, e)
    ensures Counted(Step(p, e)) && Phased(Step(p, e))
    ensures Step(p, e).minSize == p.minSize && Step(p, e).maxSize == p.maxSize
  {
    if OfWorker(e) && e.i < |p.workers| {
      WorkerCounts(p, e);
      hide WorkerStep;
    }
  }

  lemma WorkerNotStranded(p: Pool, e: Event)
    requires Counted(p) && Phased(p) && NotStranded(p)
    requires OfWorker(e) && e.i < |p.workers|
    ensures NotStranded(WorkerStep(p, e))
  {
  }

  lemma StepNotStranded(p: Pool, e: Event)
    requires Counted(p) && Phased(p) && NotStranded(p) && Allowed(p, e) && p.maxSize >= 1
    ensures NotStranded(Step(p, e))
  {
    if OfWorker(e) && e.i < |p.workers| {
      WorkerNotStranded(p, e);
      hide WorkerStep;
    }
  }

  /** Only retiring and crashing take workers away, and retiring respects the minimum until `stop`. */
  lemma ShrinkStep(p: Pool, e: Event)
    requires Counted(p)
    ensures |Step(p, e).workers| < |p.workers| ==> e.Crash? || e.Idle?
    ensures |Step(p, e).workers| < |p.workers| && e.Idle? && Accepting(p.state) ==> Step(p, e).running >= p.minSize
  {
    if OfWorker(e) && e.i < |p.workers| {
      WorkerShrinks(p, e);
      hide WorkerStep;
    }
  }

  lemma WorkerShrinks(p: Pool, e: Event)
    requires Counted(p) && OfWorker(e) && e.i < |p.workers|
    ensures |WorkerStep(p, e).workers| < |p.workers| ==> e.Crash? || e.Idle?
    ensures |WorkerStep(p, e).workers| < |p.workers| && e.Idle? && Accepting(p.state) ==>
              WorkerStep(p, e).running >= p.minSize
  {
    hide Yielded, Retired;
  }

  // ---------- every task is in one place ----------

  lemma GrownPlaces(p: Pool, should: bool, n: Name)
    requires Placed(p, n)
    ensures Placed(Grown(p, should), n)
  {
    SumSnoc(p.workers, NEWCOMER, Holds(n));
  }

  /** A change of a worker that leaves its stack alone. */
  lemma FlagPlaces(p: Pool, i: nat, w: Worker, n: Name)
    requires Placed(p, n) && i < |p.workers| && w.stack == p.workers[i].stack
    ensures Placed(p.(workers := p.workers[i := w]), n)
  {
    SumUpdate(p.workers, i, w, Holds(n));
  }

  lemma SubmitPlaces(p: Pool, name: Name, inside: Option<nat>, n: Name)
    requires Placed(p, n)
    ensures Placed(Step(p, Submit(name, inside)), n)
  {
    OccConcat(p.tasks, [name], n);
    OccConcat(p.submitted, [name], n);
  }

  lemma BeginPlaces(p: Pool, i: nat, n: Name)
    requires Placed(p, n) && i < |p.workers|
    ensures Placed(Begun(p, i), n)
  {
    if p.tasks != [] {
      var w := p.workers[i];
      var stack := [p.tasks[0]] + w.stack;
      SumUpdate(p.workers, i, w.(stack := stack), Holds(n));
      assert stack[1..] == w.stack;
      OccConcat(p.started, [p.tasks[0]], n);
    }
  }

  /** The assertion in `try_run` holds: a task in progress has no result yet. */
  lemma NoResultYet(p: Pool, i: nat)
    requires Accounted(p) && i < |p.workers| && p.workers[i].stack != []
    ensures p.workers[i].stack[0] !in p.results
  {
    var n := p.workers[i].stack[0];
    assert Placed(p, n) && Occ(p.submitted, n) <= 1;
    SumWithout(p.workers, i, Holds(n));
  }

  lemma FinishPlaces(p: Pool, i: nat, outcome: Outcome, n: Name)
    requires Accounted(p) && i < |p.workers| && p.workers[i].stack != []
    ensures Placed(Completed(p, i, outcome), n)
  {
    assert Placed(p, n);
    NoResultYet(p, i);
    var w := p.workers[i];
    SumUpdate(p.workers, i, w.(stack := w.stack[1..]), Holds(n));
  }

  /** A worker goes; its stack is lost, if it has one. */
  lemma GonePlaces(p: Pool, i: nat, running: nat, n: Name)
    requires Placed(p, n) && i < |p.workers|
    ensures Placed(p.(workers := Without(p.workers, i), lost := p.lost + p.workers[i].stack, running := running), n)
  {
    SumWithout(p.workers, i, Holds(n));
    OccConcat(p.lost, p.workers[i].stack, n);
    hide Occ, Sum, HandedOut, Stored, Without;
  }

  /** The bookkeeping of errors concerns no task. */
  lemma FailedPlaces(p: Pool, leaked: nat, n: Name)
    requires Placed(p, n)
    ensures Placed(Failed(p), n) && Placed(p.(leaked := leaked), n)
  {
  }

  lemma YieldedPlaces(p: Pool, i: nat, timed: bool, n: Name)
    requires Placed(p, n) && i < |p.workers|
    ensures Placed(Yielded(p, i, timed), n)
  {
    var w := p.workers[i].(parked := p.workers[i].inCall && !timed);
    FlagPlaces(p, i, w, n);
    GrownPlaces(p.(workers := p.workers[i := w]), true, n);
    hide Grown, Placed;
  }

  lemma RetiredPlaces(p: Pool, i: nat, n: Name)
    requires Placed(p, n) && i < |p.workers| && p.workers[i].stack == []
    ensures Placed(Retired(p, i), n)
  {
    GonePlaces(p, i, SaturatingDec(p.running), n);
    assert p.lost + p.workers[i].stack == p.lost;
    var p' := p.(workers := Without(p.workers, i), running := SaturatingDec(p.running));
    FailedPlaces(p', 0, n);
    hide Placed, Failed, Without;
  }

  lemma FailCountPlaces(p: Pool, popFails: nat, n: Name)
    requires Placed(p, n)
    ensures Placed(p.(popFails := popFails), n)
  {
  }

  lemma IdlePlaces(p: Pool, i: nat, aged: bool, delays: bool, n: Name)
    requires Placed(p, n) && i < |p.workers| && p.workers[i].stack == []
    ensures Placed(Idled(p, i, aged, delays), n)
  {
    hide Placed, Yielded, Retired;
    FailCountPlaces(p, 0, n);
    FailCountPlaces(p, p.popFails + 1, n);
    var p1 := p.(popFails := p.popFails + 1);
    if Recycles(p, aged) {
      RetiredPlaces(p, i, n);
    } else {
      YieldedPlaces(p1, i, false, n);
      var w := p.workers[i].(blocked := true);
      FlagPlaces(p1, i, w, n);
      YieldedPlaces(p1.(workers := p1.workers[i := w]), i, false, n);
    }
  }

  lemma CrashPlaces(p: Pool, i: nat, n: Name)
    requires Placed(p, n) && i < |p.workers|
    ensures Placed(Crashed(p, i), n)
  {
    hide Placed, Grown, Failed, Without;
    var p' := p.(workers := Without(p.workers, i), lost := p.lost + p.workers[i].stack);
    if p.workers[i].inCall {
      GonePlaces(p, i, p.running, n);
      FailedPlaces(p', p.leaked + 1, n);
      FailedPlaces(p'.(leaked := p.leaked + 1), 0, n);
    } else {
      GonePlaces(p, i, WrappingDec(p.running), n);
      GrownPlaces(p'.(running := WrappingDec(p.running)), true, n);
    }
  }

  lemma TakePlaces(p: Pool, name: Name, n: Name)
    requires Placed(p, n)
    ensures Placed(Step(p, Take(name)), n)
  {
    if name in p.results {
      var t := p.taken + [(name, p.results[name])];
      assert t[..|p.taken|] == p.taken;
      hide Occ, Sum;
    }
  }

  /** The events of one worker. */
  lemma WorkerPlaces(p: Pool, e: Event, n: Name)
    requires Accounted(p) && Placed(p, n) && OfWorker(e) && e.i < |p.workers|
    ensures Placed(WorkerStep(p, e), n)
  {
    var i, w := e.i, p.workers[e.i];
    hide Placed, Begun, Completed, Yielded, Idled, Crashed, Accounted;
    match e {
      case Begin(_) => BeginPlaces(p, i, n);
      case Finish(_, outcome) =>
        if w.stack != [] {
          FinishPlaces(p, i, outcome, n);
        }
      case Cross(_, into) => FlagPlaces(p, i, w.(inCall := into), n);
      case Hand(_, timed) => YieldedPlaces(p, i, timed, n);
      case Idle(_, aged, delays) =>
        if w.stack == [] {
          IdlePlaces(p, i, aged, delays, n);
        }
      case Unblock(_) =>
        FlagPlaces(p, i, w.(blocked := false), n);
        FailCountPlaces(p.(workers := p.workers[i := w.(blocked := false)]), 0, n);
      case Wake(_) => FlagPlaces(p, i, w.(parked := false), n);
      case Crash(_) => CrashPlaces(p, i, n);
    }
  }

  /** Neither does the state of the pool. */
  lemma StopPlaces(p: Pool, n: Name)
    requires Placed(p, n)
    ensures Placed(p.(state := PoolRunning), n) && Placed(p.(state := Stopping(false)), n)
    ensures Placed(p.(state := Stopped), n)
    ensures Placed(p.(stopCalled := true), n) && Placed(p.(broken := true), n)
  {
  }

  lemma StepPlaces(p: Pool, e: Event, n: Name)
    requires Accounted(p)
    ensures Placed(Step(p, e), n)
  {
    assert Placed(p, n);
    if OfWorker(e) {
      hide Placed, WorkerStep;
      if e.i < |p.workers| {
        WorkerPlaces(p, e, n);
      }
    } else {
      OwnPlaces(p, e, n);
    }
  }

  /** The events of the pool itself. */
  lemma OwnPlaces(p: Pool, e: Event, n: Name)
    requires Placed(p, n) && !OfWorker(e)
    ensures Placed(Step(p, e), n)
  {
    hide Placed, Grown;
    match e {
      case Submit(name, inside) => SubmitPlaces(p, name, inside, n);
      case Round => GrownPlaces(p, Accepting(p.state), n);
      case Take(name) => TakePlaces(p, name, n);
      case _ =>
        GrownPlaces(p, true, n);
        StopPlaces(p, n);
        StopPlaces(Grown(p, true), n);
    }
  }

  lemma StepAccounts(p: Pool, e: Event)
    requires Accounted(p) && !p.broken && Promised(p, e)
    ensures Accounted(Step(p, e)) && !Step(p, e).broken
  {
    if e.Finish? && e.i < |p.workers| && p.workers[e.i].stack != [] {
      NoResultYet(p, e.i);
    }
    forall n ensures Placed(Step(p, e), n) && Occ(Step(p, e).submitted, n) <= 1 {
      assert Placed(p, n) && Occ(p.submitted, n) <= 1;
      StepPlaces(p, e, n);
      StepSubmits(p, e, n);
      hide Placed, Step, Occ;
    }
  }

  lemma StepSubmits(p: Pool, e: Event, n: Name)
    requires Occ(p.submitted, n) <= 1 && Promised(p, e)
    ensures Occ(Step(p, e).submitted, n) <= 1
  {
    if e.Submit? {
      OccConcat(p.submitted, [e.name], n);
      OccIn(p.submitted, n);
    }
  }

  lemma StepHonest(p: Pool, e: Event)
    requires Accounted(p) && Honest(p)
    ensures Honest(Step(p, e))
  {
    if e.Take? {
      TakeHonest(p, e.name);
    } else if e.Finish? && e.i < |p.workers| && p.workers[e.i].stack != [] {
      FinishHonest(p, e.i, e.outcome);
      hide Completed;
    } else {
      OtherHonest(p, e);
    }
  }

  /** Only `try_run` and `try_get_result` touch results. */
  lemma OtherHonest(p: Pool, e: Event)
    requires Honest(p) && !e.Take?
    requires e.Finish? ==> e.i >= |p.workers| || p.workers[e.i].stack == []
    ensures Step(p, e).results == p.results && Step(p, e).taken == p.taken && Step(p, e).outcomes == p.outcomes
    ensures Honest(Step(p, e))
  {
    hide Honest, Grown, WorkerStep;
    if OfWorker(e) && e.i < |p.workers| {
      WorkerResults(p, e);
    }
    SameHonest(p, Step(p, e));
  }

  lemma WorkerResults(p: Pool, e: Event)
    requires OfWorker(e) && e.i < |p.workers| && (e.Finish? ==> p.workers[e.i].stack == [])
    ensures var p' := WorkerStep(p, e); p'.results == p.results && p'.taken == p.taken && p'.outcomes == p.outcomes
  {
    hide Yielded, Idled, Crashed, Completed;
    if e.Begin? {
      assert Begun(p, e.i).results == p.results;
    } else if e.Finish? {
      assert WorkerStep(p, e) == p;
    } else {
      hide Begun;
    }
  }

  lemma SameHonest(p: Pool, p': Pool)
    requires Honest(p) && p'.results == p.results && p'.taken == p.taken && p'.outcomes == p.outcomes
    ensures Honest(p')
  {
  }

  lemma TakeHonest(p: Pool, name: Name)
    requires Honest(p)
    ensures Honest(Step(p, Take(name)))
  {
    if !p.broken && name in p.results {
      var t := p.taken + [(name, p.results[name])];
      assert t[..|p.taken|] == p.taken;
    }
  }

  lemma {:induction false} HandedOutIn(taken: seq<(Name, Outcome)>, i: nat)
    requires i < |taken|
    ensures HandedOut(taken, taken[i].0) > 0
    decreases |taken|
  {
    if i < |taken| - 1 {
      HandedOutIn(taken[..|taken| - 1], i);
    }
  }

  lemma FinishHonest(p: Pool, i: nat, outcome: Outcome)
    requires Accounted(p) && Honest(p) && i < |p.workers| && p.workers[i].stack != []
    ensures Honest(Completed(p, i, outcome))
  {
    var n := p.workers[i].stack[0];
    NoResultYet(p, i);
    assert Placed(p, n) && Occ(p.submitted, n) <= 1;
    SumWithout(p.workers, i, Holds(n));
    forall k | 0 <= k < |p.taken| ensures p.taken[k].0 != n {
      HandedOutIn(p.taken, k);
    }
  }

  // ---------- whole runs ----------

  lemma StepSound(p: Pool, e: Event)
    requires Sound(p) && Promised(p, e)
    ensures Sound(Step(p, e))
    ensures Step(p, e).minSize == p.minSize && Step(p, e).maxSize == p.maxSize
  {
    StepCounts(p, e);
    StepAccounts(p, e);
    StepHonest(p, e);
    hide Step, Accounted, Honest, Counted;
  }

  lemma StepKeeps(p: Pool, e: Event)
    requires Inv(p) && Allowed(p, e) && p.maxSize >= 1
    ensures Inv(Step(p, e))
    ensures Step(p, e).minSize == p.minSize && Step(p, e).maxSize == p.maxSize
  {
    StepSound(p, e);
    StepNotStranded(p, e);
    hide Step, Accounted, Honest, NotStranded, Counted;
  }

  /** Growth, whoever asks for it, keeps everything. */
  lemma GrownKeeps(p: Pool, should: bool)
    requires Inv(p)
    ensures Inv(Grown(p, should))
  {
    forall n ensures Placed(Grown(p, should), n) && Occ(p.submitted, n) <= 1 {
      assert Placed(p, n) && Occ(p.submitted, n) <= 1;
      GrownPlaces(p, should, n);
    }
    SameHonest(p, Grown(p, should));
    hide Honest, Placed;
  }

  lemma {:induction false} RunKeeps(p: Pool, es: seq<Event>)
    requires Inv(p) && AllAllowed(p, es) && p.maxSize >= 1
    ensures Inv(Run(p, es))
    ensures Run(p, es).minSize == p.minSize && Run(p, es).maxSize == p.maxSize
    decreases es
  {
    if es != [] {
      StepKeeps(p, es[0]);
      hide Inv, Step;
      RunKeeps(Step(p, es[0]), es[1..]);
    }
  }

  lemma FreshInv(minSize: nat, maxSize: nat)
    ensures Inv(Fresh(minSize, maxSize))
  {
    var p := Fresh(minSize, maxSize);
    forall n ensures Placed(p, n) && Occ(p.submitted, n) <= 1 {
    }
  }

  /** A pool after any run that keeps to what callers promise. */
  ghost predicate Reachable(p: Pool) {
    exists minSize: nat, maxSize: nat, es :: IsRun(minSize, maxSize, es, p)
  }

  ghost predicate IsRun(minSize: nat, maxSize: nat, es: seq<Event>, p: Pool) {
    maxSize >= 1 && AllAllowed(Fresh(minSize, maxSize), es) && Run(Fresh(minSize, maxSize), es) == p
  }

  lemma ReachableInv(p: Pool)
    requires Reachable(p)
    ensures Inv(p) && p.maxSize >= 1
  {
    var minSize: nat, maxSize: nat, es :| IsRun(minSize, maxSize, es, p);
    FreshInv(minSize, maxSize);
    RunKeeps(Fresh(minSize, maxSize), es);
  }

  /** A step that crashes a worker inside a system call. */
  predicate CrashesInCall(p: Pool, e: Event) {
    !p.broken && e.Crash? && e.i < |p.workers| && Free(p.workers[e.i]) && p.workers[e.i].inCall
  }

  predicate NoCrashInCall(p: Pool, es: seq<Event>)
    decreases es
  {
    es == [] || (!CrashesInCall(p, es[0]) && NoCrashInCall(Step(p, es[0]), es[1..]))
  }

  lemma StepLeaks(p: Pool, e: Event)
    ensures Step(p, e).leaked == p.leaked + if CrashesInCall(p, e) then 1 else 0
  {
    if OfWorker(e) && e.i < |p.workers| && !e.Crash? {
      hide Idled, Yielded;
    }
  }

  lemma {:induction false} RunLeaks(p: Pool, es: seq<Event>)
    ensures Run(p, es).leaked >= p.leaked
    ensures Run(p, es).leaked == p.leaked <==> NoCrashInCall(p, es)
    decreases es
  {
    if es != [] {
      StepLeaks(p, es[0]);
      hide Step;
      RunLeaks(Step(p, es[0]), es[1..]);
    }
  }

  /**
   * `running` never exceeds the maximum, and over every run it is the number of live workers if and
   * only if no worker has crashed inside a system call.
   */
  lemma WorkersCounted(minSize: nat, maxSize: nat, es: seq<Event>)
    requires maxSize >= 1 && AllAllowed(Fresh(minSize, maxSize), es)
    ensures var p := Run(Fresh(minSize, maxSize), es);
            && |p.workers| <= p.running <= maxSize
            && (p.running == |p.workers| <==> NoCrashInCall(Fresh(minSize, maxSize), es))
  {
    FreshInv(minSize, maxSize);
    RunKeeps(Fresh(minSize, maxSize), es);
    RunLeaks(Fresh(minSize, maxSize), es);
  }

  /** Such a crash: the count stays, the worker is gone, nobody replaces it, and the schedule fails. */
  lemma CrashInCallMiscounts(p: Pool, i: nat)
    requires Reachable(p) && i < |p.workers| && Free(p.workers[i]) && p.workers[i].inCall
    ensures var p' := Step(p, Crash(i));
            && |p'.workers| == |p.workers| - 1 && p'.running == p.running && p'.running > |p'.workers|
            && p'.errors == p.errors + 1
  {
    ReachableInv(p);
  }

  /** Until `stop`, workers retire only down to the minimum; nothing else but a crash takes one away. */
  lemma RetiringKeepsMinimum(p: Pool, e: Event)
    requires Reachable(p) && Accepting(p.state) && !e.Crash?
    ensures |Step(p, e).workers| < |p.workers| ==>
              Step(p, e).running >= p.minSize && |Step(p, e).workers| + p.leaked >= p.minSize
  {
    ReachableInv(p);
    ShrinkStep(p, e);
    StepLeaks(p, e);
    hide Step;
  }

  /** No task is stranded by shutdown unless a worker has crashed inside a system call; a stopped pool is empty. */
  lemma NoTaskStranded(p: Pool)
    requires Reachable(p) && p.stopCalled
    ensures p.leaked == 0 && p.tasks != [] ==> p.workers != []
    ensures p.state == Stopped ==> p.tasks == [] && p.running == 0 && p.workers == [] && p.leaked == 0
  {
    ReachableInv(p);
  }

  lemma StoppedIsEmpty(p: Pool)
    requires Inv(p)
    ensures p.stopCalled && p.leaked == 0 && p.tasks != [] ==> p.workers != []
    ensures p.state == Stopped ==> p.stopCalled && p.tasks == [] && p.workers == [] && p.running == 0
    ensures if Accepting(p.state) then !p.stopOver else p.stopCalled
  {
  }

  /** Every submitted task is in exactly one place. */
  lemma TaskInOnePlace(p: Pool, n: Name)
    requires Reachable(p) && n in p.submitted
    ensures Occ(p.tasks, n) + OnWorkers(p.workers, n) + Stored(p.results, n) + HandedOut(p.taken, n) + Occ(p.lost, n) == 1
  {
    ReachableInv(p);
    assert Placed(p, n) && Occ(p.submitted, n) <= 1;
    OccIn(p.submitted, n);
  }

  /** Run at most once, result handed out at most once and only as the task gave it; no assertion fires. */
  lemma ExactlyOnce(p: Pool, n: Name)
    requires Reachable(p)
    ensures !p.broken && Occ(p.started, n) <= 1 && HandedOut(p.taken, n) <= 1
    ensures n in p.results ==> n in p.outcomes && p.results[n] == p.outcomes[n]
    ensures forall i | 0 <= i < |p.taken| && p.taken[i].0 == n :: n in p.outcomes && p.taken[i].1 == p.outcomes[n]
    ensures n in p.outcomes <==> Stored(p.results, n) + HandedOut(p.taken, n) == 1
  {
    ReachableInv(p);
    assert Placed(p, n) && Occ(p.submitted, n) <= 1;
    if HandedOut(p.taken, n) > 0 {
      var i := HandedOutAt(p.taken, n);
    }
  }

  lemma {:induction false} HandedOutAt(taken: seq<(Name, Outcome)>, n: Name) returns (i: nat)
    requires HandedOut(taken, n) > 0
    ensures i < |taken| && taken[i].0 == n
    decreases |taken|
  {
    i := |taken| - 1;
    if taken[i].0 != n {
      i := HandedOutAt(taken[..i], n);
    }
  }

  /** A `stop` trips the assertion on the state if and only if another one is under way or has timed out or failed. */
  lemma SecondStopTripsAssertion(p: Pool)
    requires Reachable(p)
    ensures Step(p, StopBegin).broken <==> p.stopCalled && p.state != PoolCreated && p.state != Stopped
  {
    ReachableInv(p);
  }

  /** What `try_get_result` hands out is what the task gave, and it is handed out this once. */
  lemma TakenIsTheOutcome(p: Pool, n: Name)
    requires Inv(p) && n in p.results
    ensures var p' := Step(p, Take(n));
            && n !in p'.results && n in p'.outcomes && p'.outcomes[n] == p.results[n]
            && HandedOut(p.taken, n) == 0 && HandedOut(p'.taken, n) == 1
  {
    assert Placed(p, n) && Occ(p.submitted, n) <= 1;
    var t := p.taken + [(n, p.results[n])];
    assert t[..|p.taken|] == p.taken;
  }

  /**
   * The promise of new names is needed: a task run while a result under its name is uncollected trips
   * the assertion in `try_run`, and without such a result it does not.
   */
  lemma RepeatedNameTripsAssertion(p: Pool, i: nat, outcome: Outcome)
    requires !p.broken && i < |p.workers| && Free(p.workers[i]) && p.tasks != []
    ensures Step(Step(p, Begin(i)), Finish(i, outcome)).broken <==> p.tasks[0] in p.results
  {
    assert Begun(p, i).workers[i].stack[0] == p.tasks[0];
  }

  // ---------- order ----------

  lemma StepInOrder(p: Pool, e: Event)
    requires p.submitted == p.started + p.tasks
    ensures Step(p, e).submitted == Step(p, e).started + Step(p, e).tasks
    ensures p.started <= Step(p, e).started && p.submitted <= Step(p, e).submitted
  {
    if OfWorker(e) && e.i < |p.workers| {
      WorkerInOrder(p, e);
    }
    hide Grown, WorkerStep;
  }

  lemma WorkerInOrder(p: Pool, e: Event)
    requires OfWorker(e) && e.i < |p.workers|
    ensures WorkerStep(p, e).submitted == p.submitted && p.started <= WorkerStep(p, e).started
    ensures WorkerStep(p, e).started + WorkerStep(p, e).tasks == p.started + p.tasks
  {
    hide Yielded, Idled, Crashed;
    if e.Begin? {
      hide Completed;
      if p.tasks != [] {
        assert p.tasks == [p.tasks[0]] + p.tasks[1..];
      }
    } else {
      hide Begun;
      assert WorkerStep(p, e).tasks == p.tasks && WorkerStep(p, e).started == p.started;
    }
  }

  /** Tasks begin in the order of their submission: over every run, the waiting ones are the latest. */
  lemma {:induction false} RunInOrder(p: Pool, es: seq<Event>)
    requires p.submitted == p.started + p.tasks
    ensures Run(p, es).submitted == Run(p, es).started + Run(p, es).tasks
    ensures p.started <= Run(p, es).started && p.submitted <= Run(p, es).submitted
    decreases es
  {
    if es != [] {
      StepInOrder(p, es[0]);
      hide Step;
      RunInOrder(Step(p, es[0]), es[1..]);
    }
  }

  /** So the n-th submission to a new pool is the n-th task to begin, if it ever begins. */
  lemma BeginsInOrder(p: Pool, k: nat)
    requires Reachable(p) && k < |p.started|
    ensures k < |p.submitted| && p.started[k] == p.submitted[k]
  {
    var minSize: nat, maxSize: nat, es :| IsRun(minSize, maxSize, es, p);
    RunInOrder(Fresh(minSize, maxSize), es);
  }

  /**
   * A whole `try_run`, also one inside a task: the oldest waiting task is gone from the queue, its own
   * outcome is in the table, and the worker is back at what it was doing.
   */
  lemma TryRun(p: Pool, i: nat, outcome: Outcome)
    requires !p.broken && i < |p.workers| && Free(p.workers[i]) && p.tasks != [] && p.tasks[0] !in p.results
    ensures var name := p.tasks[0]; var p' := Step(Step(p, Begin(i)), Finish(i, outcome));
            && p'.results == p.results[name := outcome] && p'.workers == p.workers
            && [name] + p'.tasks == p.tasks && p'.started == p.started + [name]
            && p'.popFails == if p.workers[i].stack == [] then 0 else p.popFails
  {
    var p1, w := Begun(p, i), p.workers[i];
    assert p1.workers[i].stack[0] == p.tasks[0] && p1.workers[i].stack[1..] == w.stack;
    assert w.(stack := w.stack) == w;
    assert p1.workers[i := w] == p.workers;
  }

  /** A worker outside any call that looks for a task in vain. */
  predicate Looks(p: Pool, e: Event) {
    && e.Idle? && !e.aged && e.i < |p.workers|
    && Free(p.workers[e.i]) && p.workers[e.i].stack == [] && !p.workers[e.i].inCall
  }

  /** Fewer looks in vain than there are workers change nothing but their number: nobody blocks. */
  lemma {:induction false} LooksInVain(p: Pool, es: seq<Event>)
    requires !p.broken && Accepting(p.state) && p.tasks == [] && p.popFails + |es| < p.running
    requires forall e <- es :: Looks(p, e)
    ensures Run(p, es) == p.(popFails := p.popFails + |es|)
    decreases es
  {
    if es != [] {
      var e := es[0];
      assert Looks(p, e);
      var w := p.workers[e.i];
      assert p.workers[e.i := w.(parked := false)] == p.workers;
      assert Step(p, e) == p.(popFails := p.popFails + 1);
      hide Step;
      var p' := p.(popFails := p.popFails + 1);
      forall e' <- es[1..] ensures Looks(p', e') {
        assert Looks(p, e');
      }
      LooksInVain(p', es[1..]);
    }
  }

  /** The look that completes a round of all workers blocks its worker, which then starts a new round. */
  lemma LastLookBlocks(p: Pool, e: Event)
    requires !p.broken && Accepting(p.state) && p.tasks == [] && p.popFails + 1 >= p.running && Looks(p, e)
    ensures e.delays ==> Step(p, e).workers[e.i].blocked && Step(Step(p, e), Unblock(e.i)) == p.(popFails := 0)
    ensures !e.delays ==> Step(p, e) == p.(popFails := 0)
  {
    var w := p.workers[e.i];
    var p1 := Step(p, e);
    if e.delays {
      assert p1.workers == p.workers[e.i := w.(blocked := true, parked := false)];
      assert p1.workers[e.i := p1.workers[e.i].(blocked := false)] == p.workers;
    }
  }

  /** The pool has a newcomer at the end, who can begin the oldest waiting task. */
  ghost predicate Relieved(p: Pool, p': Pool) {
    && p'.workers != [] && p'.workers[|p'.workers| - 1] == NEWCOMER && p.tasks != []
    && Step(p', Begin(|p'.workers| - 1)).started == p.started + [p.tasks[0]]
  }

  /** A round begins: exactly if the pool takes tasks, some wait and there is room, somebody comes for them. */
  lemma RoundRelieves(p: Pool)
    requires !p.broken
    ensures var p' := Step(p, Round);
            if Accepting(p.state) && p.tasks != [] && p.running < p.maxSize then Relieved(p, p') else p' == p
  {
  }

  /** A task that yields makes room for the others: exactly if some wait and there is room, somebody comes. */
  lemma YieldRelieves(p: Pool, i: nat, timed: bool)
    requires !p.broken && i < |p.workers| && Busy(p.workers[i])
    ensures var p' := Step(p, Hand(i, timed));
            if p.tasks != [] && p.running < p.maxSize then Relieved(p, p') && |p'.workers| == |p.workers| + 1
            else |p'.workers| == |p.workers|
  {
    var p' := Step(p, Hand(i, timed));
    assert p'.tasks == p.tasks && p'.started == p.started && !p'.broken;
  }

  /** A worker that panics outside any call is replaced exactly if tasks wait, in every state of the pool. */
  lemma CrashRelieves(p: Pool, i: nat)
    requires Reachable(p) && i < |p.workers| && Free(p.workers[i]) && !p.workers[i].inCall
    ensures var p' := Step(p, Crash(i));
            if p.tasks != [] then Relieved(p, p') && |p'.workers| == |p.workers| else |p'.workers| == |p.workers| - 1
  {
    ReachableInv(p);
    var p' := Step(p, Crash(i));
    assert p'.tasks == p.tasks && p'.started == p.started && !p'.broken;
  }
}
