// The workers of the pool model and the coroutines of the scheduler: in every legal run of the
// scheduler, the flags that the pool keeps of a worker are read off its coroutine.
module PoolInScheduler {
  import opened Constants
  import opened StateMachine
  import opened SchedulerModel
  import opened SchedulerInvariant
  import opened SchedulerRuns
  import opened SchedulerTheorems
  import opened SchedulerProtocol
  import PM = PoolModel
  import WorkSteal

  /** The coroutine `n` is alive and shows the flags of worker `w`. */
  ghost predicate Shows(s: Sched, n: Name, w: PM.Worker) {
    && n in s.cells && !s.cells[n].Complete? && !s.cells[n].Error? && n !in s.lost
    && w.inCall == s.cells[n].SystemCall?
    && w.parked == (n in s.syscall && s.cells[n].SystemCall? && !s.cells[n].sub.Suspend?)
  }

  /** It has left the scheduler: reported complete or failed, or dropped. */
  ghost predicate HasLeft(s: Sched, n: Name) {
    IsFinished(s, n) || IsDropped(s, n)
  }

  // ---------- the worker's own turn ----------

  /** How the pool's worker `i` stands when a stretch that leaves the cell `c` ends. */
  ghost predicate StandsAt(p: PM.Pool, i: nat, c: CoroutineState) {
    i < |p.workers| && PM.Free(p.workers[i]) && p.workers[i].inCall == c.SystemCall?
  }

  /** The wait has a deadline. */
  predicate Timed(c: CoroutineState) {
    c.SystemCall? && c.sub.Suspend?
  }

  /**
   * The turn of a worker's coroutine ends as the pool model says: a yield parks it exactly if
   * `Yielded` does; a return fails the schedule exactly if `Retired` counts an error; a panic fails it
   * exactly if `Crashed` counts an error, and is reported otherwise.
   */
  lemma WorkerTurn(s: Sched, clock: nat, r: Readings, b: Stretch, n: Name, p: PM.Pool, i: nat)
    requires Inv(s, clock) && Timely(s, clock, r) && FreshTurn(s, r, b) && Chosen(s, r) == Some(n)
    requires n in AtResume(s, r).cells && StandsAt(p, i, CellAtEnd(AtResume(s, r).cells[n], r.now1, b))
    ensures Shape(s)
    ensures var c := CellAtEnd(AtResume(s, r).cells[n], r.now1, b);
            var t := Turn(s, r, b);
            && (b.end.Yields? ==> t.Ran? && i < |PM.Yielded(p, i, Timed(c)).workers|
                                  && Shows(t.sched, n, PM.Yielded(p, i, Timed(c)).workers[i]))
            && (b.end.Returns? ==> HasLeft(t.sched, n) && (t.Failed? <==> PM.Retired(p, i).errors > p.errors))
            && (b.end.Panics? ==> HasLeft(t.sched, n) && (t.Failed? <==> PM.Crashed(p, i).errors > p.errors))
            && (!b.end.Yields? ==> (IsFinished(t.sched, n) <==> !t.Failed?))
  {
    assert Shape(s);
    ResumePoint(s, clock, r);
    hide MidInv, CheckReady, WorkSteal.PopFront, Resume, CellAtEnd, Runnable, StandsAt, FreshStretch, Shows;
    var s2 := AtResume(s, r);
    assert Turn(s, r, b) == Resume(s2, n, r.now1, b, r.now2);
    WorkerResume(s2, r.cut2, n, r.now1, b, r.now2, p, i);
    hide Turn, AtResume, Chosen, HasLeft, IsFinished;
  }

  lemma WorkerResume(s: Sched, clock: nat, n: Name, now1: nat, b: Stretch, now2: nat, p: PM.Pool, i: nat)
    requires MidInv(s, clock, multiset{n}, []) && Shape(s) && n in s.cells && Runnable(s.cells[n], clock)
    requires clock <= now1 <= now2 && FreshStretch(s, n, now1, b)
    requires StandsAt(p, i, CellAtEnd(s.cells[n], now1, b))
    ensures var c := CellAtEnd(s.cells[n], now1, b);
            var t := Resume(s, n, now1, b, now2);
            && (b.end.Yields? ==> t.Ran? && i < |PM.Yielded(p, i, Timed(c)).workers|
                                  && Shows(t.sched, n, PM.Yielded(p, i, Timed(c)).workers[i]))
            && (b.end.Returns? ==> HasLeft(t.sched, n) && (t.Failed? <==> PM.Retired(p, i).errors > p.errors))
            && (b.end.Panics? ==> HasLeft(t.sched, n) && (t.Failed? <==> PM.Crashed(p, i).errors > p.errors))
            && (!b.end.Yields? ==> (IsFinished(t.sched, n) <==> !t.Failed?))
  {
    OwnEnd(s, clock, n, now1, b, now2);
    ResumeKeeps(s, clock, n, now1, b, now2);
    hide MidInv, Resume, CellAtEnd, Runnable, FreshStretch, Shows, HasLeft, IsFinished;
    var c := CellAtEnd(s.cells[n], now1, b);
    var t := Resume(s, n, now1, b, now2);
    EndsIn(c, b.end);
    PoolErrors(p, i, c);
    if b.end.Yields? {
      YieldShows(t.sched, n, c, b.end, p, i);
    } else {
      LeavesBy(t.sched, now2, n, !t.Failed?);
    }
    hide StandsAt, PM.Yielded, PM.Retired, PM.Crashed, At, AfterBody, InBody;
  }

  lemma EndsIn(c: CoroutineState, end: End)
    requires InBody(c)
    ensures end.Yields? ==> AfterBody(c, end).Some?
    ensures !end.Yields? && c == Running ==>
              AfterBody(c, end).Some? && (AfterBody(c, end).value.Complete? || AfterBody(c, end).value.Error?)
    ensures c != Running <==> c.SystemCall?
  {
  }

  /** The pool counts an error exactly for a worker inside a system call. */
  lemma PoolErrors(p: PM.Pool, i: nat, c: CoroutineState)
    requires StandsAt(p, i, c)
    ensures PM.Retired(p, i).errors > p.errors <==> c.SystemCall?
    ensures PM.Crashed(p, i).errors > p.errors <==> c.SystemCall?
  {
  }

  /** The state and the place in which its own turn leaves a coroutine. */
  lemma OwnEnd(s: Sched, clock: nat, n: Name, now1: nat, b: Stretch, now2: nat)
    requires MidInv(s, clock, multiset{n}, []) && n in s.cells && Runnable(s.cells[n], clock)
    requires clock <= now1 <= now2 && FreshStretch(s, n, now1, b)
    ensures Shape(s) && n !in s.lost
    ensures InBody(CellAtEnd(s.cells[n], now1, b))
    ensures var st := AfterBody(CellAtEnd(s.cells[n], now1, b), b.end);
            st.Some? ==> At(Resume(s, n, now1, b, now2).sched, n, st.value, st.value.SystemCall?)
  {
    assert Shape(s);
    assert OnePlace(s, multiset{n}, n);
    hide MidInv, Resume, RunBody, FreshStretch, HookRun;
    RunBodyKeeps(s, clock, n, now1, b);
    var running := if s.cells[n].SystemCall? then s.cells[n] else Running;
    assert ToRunning(s.cells[n], now1) == Some(running);
    hide Runnable;
    OwnTurnAt(s, clock, n, now1, b, now2, running);
  }

  lemma YieldShows(s: Sched, n: Name, c: CoroutineState, end: End, p: PM.Pool, i: nat)
    requires InBody(c) && end.Yields? && StandsAt(p, i, c) && n !in s.lost
    requires var st := AfterBody(c, end); st.Some? && At(s, n, st.value, st.value.SystemCall?)
    ensures i < |PM.Yielded(p, i, Timed(c)).workers| && Shows(s, n, PM.Yielded(p, i, Timed(c)).workers[i])
  {
  }

  lemma LeavesBy(s: Sched, clock: nat, n: Name, finished: bool)
    requires Inv(s, clock)
    requires if finished then HasFinished(s, n) else n in s.lost
    ensures HasLeft(s, n) && (IsFinished(s, n) <==> finished)
  {
    if finished {
      FinishedIsReported(s, clock, n);
    } else {
      ExactlyOnePlace(s, clock, n);
    }
  }

  // ---------- while others run ----------

  /** A move that does not resume `n`. */
  ghost predicate Spares(s: Sched, mv: Move, n: Name)
    requires Shape(s)
  {
    mv.MTurn? ==> Chosen(s, mv.readings) != Some(n)
  }

  /** The move brings `n` back: it is woken by name, or a deadline entry that names it is due. */
  ghost predicate Brings(s: Sched, mv: Move, n: Name)
    requires Shape(s)
  {
    match mv
    case MSubmit(_) => false
    case MWake(x) => x == n
    case MTurn(r, b) =>
      HasDue(s, n, r.cut2) || (Chosen(s, r).Some? && Wakes(b, n, Turn(s, r, b).Ran?))
  }

  /** What others do changes nothing of a worker but that it may be brought back from the syscall map. */
  lemma WorkerWaits(s: Sched, clock: nat, mv: Move, n: Name, w: PM.Worker)
    requires Inv(s, clock) && Shape(s) && Legal(s, clock, mv) && Spares(s, mv, n) && Shows(s, n, w) && n in s.syscall
    ensures Shows(Apply(s, mv), n, w.(parked := w.parked && !Brings(s, mv, n)))
    ensures n in Apply(s, mv).syscall <==> !Brings(s, mv, n)
  {
    match mv {
      case MSubmit(x) =>
        EffectAt(s, clock, multiset{}, Spawn(x), n, s.cells[n], true);
      case MWake(x) =>
        EffectAt(s, clock, multiset{}, Wake(x), n, s.cells[n], true);
        MappedCell(s, clock, n);
      case MTurn(r, b) =>
        MappedCell(s, clock, n);
        hide MidInv, Turn, FreshTurn, Timely, HasDue, Chosen, Wakes;
        TurnAt(s, clock, r, b, n);
        TurnLost(s, clock, r, b, n);
    }
  }

  lemma MappedCell(s: Sched, clock: nat, n: Name)
    requires Inv(s, clock) && n in s.syscall
    ensures n in s.cells && s.cells[n].SystemCall?
  {
  }

  lemma TurnLost(s: Sched, clock: nat, r: Readings, b: Stretch, n: Name)
    requires Inv(s, clock) && Shape(s) && Timely(s, clock, r) && FreshTurn(s, r, b)
    requires Chosen(s, r) != Some(n) && n !in s.lost
    ensures n !in Turn(s, r, b).sched.lost
  {
    TurnKeeps(s, clock, r, b);
    hide MidInv, Turn, FreshTurn, Chosen;
  }

  /** A turn of another coroutine, and `n` waiting in the syscall map. */
  lemma TurnAt(s: Sched, clock: nat, r: Readings, b: Stretch, n: Name)
    requires Inv(s, clock) && Shape(s) && Timely(s, clock, r) && FreshTurn(s, r, b) && Chosen(s, r) != Some(n)
    requires n in s.syscall
    ensures n in s.cells
    ensures var brought := HasDue(s, n, r.cut2) || (Chosen(s, r).Some? && Wakes(b, n, Turn(s, r, b).Ran?));
            var s' := Turn(s, r, b).sched;
            n in s'.cells && (n in s'.syscall <==> !brought) && (!brought ==> s'.cells[n] == s.cells[n])
            && (brought ==> s'.cells[n].SystemCall?)
  {
    MappedCell(s, clock, n);
    ClockStep(s, clock, r.cut2, multiset{}, []);
    ResumePoint(s, clock, r);
    assert FreshTurn(s, r, b);
    hide MidInv, Resume, FreshStretch, Runnable, HasDue, Wakes, Turn, AtResume, Chosen;
    BroughtByClock(s, r.cut2, r, n);
    TurnUnfolds(s, r, b);
    if Chosen(s, r).Some? {
      OtherTurn(AtResume(s, r), r.cut2, Chosen(s, r).value, r.now1, b, r.now2, n);
    }
  }

  lemma TurnUnfolds(s: Sched, r: Readings, b: Stretch)
    requires Shape(s)
    ensures Chosen(s, r).None? ==> Turn(s, r, b) == Idle(AtResume(s, r))
    ensures Chosen(s, r).Some? && Chosen(s, r).value in AtResume(s, r).cells && Shape(AtResume(s, r)) ==>
              Turn(s, r, b) == Resume(AtResume(s, r), Chosen(s, r).value, r.now1, b, r.now2)
  {
    hide CheckReady, WorkSteal.PopFront, Resume;
  }

  lemma BroughtByClock(s: Sched, clock: nat, r: Readings, n: Name)
    requires Inv(s, clock) && Shape(s) && r.cut1 <= clock && n in s.syscall
    ensures n in s.cells
    ensures var s2 := AtResume(s, r);
            var due := HasDue(s, n, r.cut2);
            n in s2.cells && (n in s2.syscall <==> !due) && (!due ==> s2.cells[n] == s.cells[n])
            && (due ==> s2.cells[n].SystemCall?)
  {
    MappedCell(s, clock, n);
    WokenIffDue(s, clock, r.cut1, r.cut2, n);
    CheckReadyShape(s, r.cut1, r.cut2);
    hide MidInv, CheckReady, WorkSteal.PopFront, HasDue;
  }

  // ---------- parked for good ----------

  lemma ParkedStays(s: Sched, clock: nat, mv: Move, n: Name)
    requires Inv(s, clock) && Shape(s) && Legal(s, clock, mv) && Pristine(s, n) && MoveNeverWakes(mv, n)
    requires n in s.syscall && n in s.cells && s.cells[n].SystemCall? && !s.cells[n].sub.Suspend?
    ensures At(Apply(s, mv), n, s.cells[n], true)
  {
    match mv {
      case MSubmit(x) =>
        EffectAt(s, clock, multiset{}, Spawn(x), n, s.cells[n], true);
      case MWake(x) =>
        EffectAt(s, clock, multiset{}, Wake(x), n, s.cells[n], true);
      case MTurn(r, b) =>
        assert !HasDue(s, n, r.cut2);
        NotChosen(s, clock, r, n);
        TurnAt(s, clock, r, b, n);
        hide MidInv, Turn, FreshTurn, Timely, HasDue, Chosen, Pristine;
    }
  }

  /** A coroutine that no due deadline entry names stays in the syscall map and is not resumed. */
  lemma NotChosen(s: Sched, clock: nat, r: Readings, n: Name)
    requires Inv(s, clock) && Shape(s) && Timely(s, clock, r) && n in s.syscall && !HasDue(s, n, r.cut2)
    ensures Chosen(s, r) != Some(n)
  {
    ClockStep(s, clock, r.cut2, multiset{}, []);
    ResumePoint(s, clock, r);
    hide MidInv, CheckReady, WorkSteal.PopFront, Runnable, HasDue;
    BroughtByClock(s, r.cut2, r, n);
    if Chosen(s, r) == Some(n) {
      HeldIsApart(AtResume(s, r), r.cut2, multiset{n}, [], n);
    }
  }

  /**
   * A worker parked in a system call without a deadline, and without stale deadline entries, stays
   * parked in every run in which nobody calls `try_resume` for it.
   */
  lemma {:induction false} ParkedForGood(s: Sched, clock: nat, ms: seq<Move>, n: Name)
    requires Inv(s, clock) && LegalRun(s, clock, ms) && Pristine(s, n)
    requires forall mv <- ms :: MoveNeverWakes(mv, n)
    requires n in s.syscall && n in s.cells && s.cells[n].SystemCall? && !s.cells[n].sub.Suspend?
    ensures At(Run(s, clock, ms).0, n, s.cells[n], true)
    decreases |ms|
  {
    if ms != [] {
      assert Shape(s);
      MoveKeeps(s, clock, ms[0]);
      MovePristine(s, clock, ms[0], n);
      ParkedStays(s, clock, ms[0], n);
      hide MidInv, Apply, Legal, Pristine, MoveNeverWakes;
      ParkedForGood(Apply(s, ms[0]), ClockAfter(clock, ms[0]), ms[1..], n);
    }
  }
}
