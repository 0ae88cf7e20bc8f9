// Theorems about every run of one scheduler: conservation, no lost wake-up, no unexpected state.
module SchedulerRuns {
  import opened Constants
  import opened StateMachine
  import opened SchedulerModel
  import opened SchedulerInvariant
  import Timer
  import WorkSteal

  // ---------- whole operations keep the invariant ----------

  lemma {:induction false} WakeDueKeeps(s: Sched, clock: nat, ns: seq<Name>)
    requires MidInv(s, clock, multiset(ns), [])
    requires forall n | n in ns :: n in s.cells && s.cells[n].Suspended? && s.cells[n].timestamp <= clock
    ensures Inv(WakeDue(s, ns), clock)
    decreases |ns|
  {
    assert Shape(s);
    hide MidInv;
    if ns == [] {
      assert multiset(ns) == multiset{};
    } else {
      var n, rest := ns[0], ns[1..];
      assert ns == [n] + rest;
      assert multiset(ns) == multiset(rest) + multiset{n};
      HeldIsApart(s, clock, multiset(ns), [], n);
      assert n !in rest;
      var s1 := SetCell(s, n, Ready);
      CellStep(s, clock, multiset(ns), [], n, Ready);
      PushStep(s1, clock, multiset(rest), [], n);
      WakeDueKeeps(Push(s1, n), clock, rest);
    }
  }

  lemma OwedStep(s: Sched, clock: nat, ns: seq<Name>)
    requires ns != [] && MidInv(s, clock, multiset{}, ns) && ns[0] !in s.syscall
    ensures MidInv(s, clock, multiset{}, ns[1..])
  {
    hide Census, Known, ReadyOk, SuspendOk, DeadlinesOk;
    forall n | n in s.syscall && n in ns ensures n in ns[1..] {
    }
  }

  lemma ExpireOneKeeps(s: Sched, clock: nat, owed: seq<Name>, n: Name)
    requires MidInv(s, clock, multiset{}, owed)
    ensures MidInv(ExpireOne(s, n), clock, multiset{}, owed)
    ensures n !in ExpireOne(s, n).syscall
    ensures n in s.syscall ==>
              && n in WorkSteal.Content(ExpireOne(s, n).ready)
              && n in s.cells && ExpireOne(s, n).cells == s.cells[n := ExpiredCell(s.cells[n])]
  {
    assert s.syscall == s.syscall;
    if n in s.syscall {
      var s1 := s.(syscall := s.syscall - {n});
      var s2 := SetCell(s1, n, ExpiredCell(s.cells[n]));
      UnmapStep(s, clock, multiset{}, owed, n);
      assert multiset{} + multiset{n} == multiset{n};
      CellStep(s1, clock, multiset{n}, owed, n, ExpiredCell(s.cells[n]));
      PushStep(s2, clock, multiset{}, owed, n);
      WorkSteal.PushConserves(s2.ready, s2.me, n);
    }
  }

  lemma {:induction false} ExpireKeeps(s: Sched, clock: nat, ns: seq<Name>)
    requires MidInv(s, clock, multiset{}, ns)
    ensures Inv(Expire(s, ns), clock)
    decreases |ns|
  {
    assert Shape(s);
    hide MidInv;
    if ns != [] {
      ExpireOneKeeps(s, clock, ns, ns[0]);
      OwedStep(ExpireOne(s, ns[0]), clock, ns);
      ExpireKeeps(ExpireOne(s, ns[0]), clock, ns[1..]);
    }
  }

  /** `check_ready` keeps the invariant, whichever clock readings it acts on. */
  lemma CheckReadyKeeps(s: Sched, clock: nat, cut1: nat, cut2: nat)
    requires Inv(s, clock) && cut1 <= clock
    ensures Inv(CheckReady(s, cut1, cut2), clock)
  {
    var s0 := s.(suspend := Timer.Later(s.suspend, cut1));
    var due := Timer.Due(s.suspend, cut1);
    DueStep(s, clock, cut1);
    WakeDueKeeps(s0, clock, due);
    var s1 := WakeDue(s0, due);
    DeadlineStep(s1, clock, cut2);
    ExpireKeeps(s1.(deadlines := Timer.Later(s1.deadlines, cut2)), clock, Timer.Due(s1.deadlines, cut2));
  }

  lemma SubmitKeeps(s: Sched, clock: nat, held: multiset<Name>, n: Name)
    requires MidInv(s, clock, held, []) && n !in s.cells
    ensures MidInv(Submit(s, n), clock, held, [])
    ensures forall m | m in s.cells :: m in Submit(s, n).cells && Submit(s, n).cells[m] == s.cells[m]
  {
    hide Census, Known, ReadyOk, SuspendOk, SyscallOk, DeadlinesOk;
    CreateStep(s, clock, held, [], n);
    PushStep(Report(SetCell(s, n, Ready), OnCreate(n)), clock, held, [], n);
  }

  lemma TryResumeKeeps(s: Sched, clock: nat, held: multiset<Name>, n: Name)
    requires MidInv(s, clock, held, [])
    ensures n in s.syscall ==> s.syscall[n] in s.cells
    ensures MidInv(TryResume(s, n), clock, held, [])
    ensures forall m | m in held :: m in s.cells && m in TryResume(s, n).cells && TryResume(s, n).cells[m] == s.cells[m]
  {
    if n in s.syscall {
      var s1 := s.(syscall := s.syscall - {n});
      var s2 := SetCell(s1, n, WokenCell(s.cells[n]));
      UnmapStep(s, clock, held, [], n);
      CellStep(s1, clock, held + multiset{n}, [], n, WokenCell(s.cells[n]));
      PushStep(s2, clock, held, [], n);
    }
    forall m | m in held ensures m in s.cells && m !in s.syscall {
      HeldIsApart(s, clock, held, [], m);
    }
  }

  /** Names handed out by the UUID generator are new. */
  ghost predicate FreshEffect(s: Sched, e: Effect) {
    e.Spawn? ==> e.name !in s.cells
  }

  ghost predicate FreshEffects(s: Sched, es: seq<Effect>)
    requires s.me < |s.ready.locals|
    decreases |es|
  {
    es == [] || (FreshEffect(s, es[0]) && FreshEffects(DoEffect(s, es[0]), es[1..]))
  }

  lemma EffectKeeps(s: Sched, clock: nat, held: multiset<Name>, e: Effect)
    requires MidInv(s, clock, held, []) && FreshEffect(s, e)
    ensures MidInv(DoEffect(s, e), clock, held, [])
    ensures forall m | m in held :: m in s.cells && m in DoEffect(s, e).cells && DoEffect(s, e).cells[m] == s.cells[m]
    ensures s.log <= DoEffect(s, e).log
  {
    forall m | m in held ensures m in s.cells {
      HeldIsApart(s, clock, held, [], m);
    }
    hide MidInv;
    match e
    case Spawn(n) => SubmitKeeps(s, clock, held, n);
    case Wake(n) => TryResumeKeeps(s, clock, held, n);
  }

  lemma {:induction false} EffectsKeep(s: Sched, clock: nat, held: multiset<Name>, es: seq<Effect>)
    requires MidInv(s, clock, held, []) && FreshEffects(s, es)
    ensures MidInv(DoEffects(s, es), clock, held, [])
    ensures forall m | m in held ::
              m in s.cells && m in DoEffects(s, es).cells && DoEffects(s, es).cells[m] == s.cells[m]
    ensures s.log <= DoEffects(s, es).log
    decreases |es|
  {
    forall m | m in held ensures m in s.cells {
      HeldIsApart(s, clock, held, [], m);
    }
    if es != [] {
      EffectKeeps(s, clock, held, es[0]);
      hide MidInv;
      EffectsKeep(DoEffect(s, es[0]), clock, held, es[1..]);
    }
  }

  function ActStep(s: Sched, n: Name, a: Act): Sched
    requires s.me < |s.ready.locals|
  {
    match a
    case Hook(h) => if n in s.cells then SetCell(s, n, HookStep(s.cells[n], h)) else s
    case Do(e) => DoEffect(s, e)
  }

  ghost predicate FreshActs(s: Sched, n: Name, acts: seq<Act>)
    requires s.me < |s.ready.locals|
    decreases |acts|
  {
    acts == [] ||
    (&& (acts[0].Do? ==> FreshEffect(s, acts[0].effect))
     && FreshActs(ActStep(s, n, acts[0]), n, acts[1..]))
  }

  /** The transitions that a stretch performs on its own cell. */
  function Hooks(acts: seq<Act>): seq<HookAct> {
    if acts == [] then []
    else (if acts[0].Hook? then [acts[0].hook] else []) + Hooks(acts[1..])
  }

  lemma {:induction false} ActsKeep(s: Sched, clock: nat, n: Name, acts: seq<Act>)
    requires MidInv(s, clock, multiset{n}, []) && FreshActs(s, n, acts) && n in s.cells
    ensures MidInv(DoActs(s, n, acts), clock, multiset{n}, [])
    ensures n in DoActs(s, n, acts).cells
    ensures DoActs(s, n, acts).cells[n] == HookRun(s.cells[n], Hooks(acts))
    decreases |acts|
  {
    if acts != [] {
      var s' := ActStep(s, n, acts[0]);
      match acts[0] {
        case Hook(h) => CellStep(s, clock, multiset{n}, [], n, HookStep(s.cells[n], h));
        case Do(e) => EffectKeeps(s, clock, multiset{n}, e);
      }
      hide MidInv;
      ActsKeep(s', clock, n, acts[1..]);
      var rest := Hooks(acts[1..]);
      if acts[0].Hook? {
        assert ([acts[0].hook] + rest)[1..] == rest;
      } else {
        assert [] + rest == rest;
      }
    }
  }

  // ---------- one turn of the scheduling loop ----------

  lemma RegisteredByEvent(log: seq<Event>, e: Event)
    requires e in log && e.OnSyscall?
    ensures e.sub.Suspend? ==> Registered(log, e.name, e.sub.until)
  {
  }

  /** Reporting the end of a stretch keeps the coroutine in hand if it goes on, and releases it if not. */
  lemma ConcludeKeeps(s: Sched, clock: nat, n: Name, st: CoroutineState)
    requires MidInv(s, clock, multiset{n}, []) && HasEnded(st)
    ensures MidInv(Conclude(s, n, st), clock,
                   if st.Complete? || st.Error? then multiset{} else multiset{n}, [])
    ensures n in Conclude(s, n, st).cells && Conclude(s, n, st).cells[n] == st
    ensures EndEvent(n, st) in Conclude(s, n, st).log
  {
    hide MidInv, SetCell, Report;
    CellStep(s, clock, multiset{n}, [], n, st);
    var e := EndEvent(n, st);
    if st.Complete? || st.Error? {
      assert multiset{} + multiset{n} == multiset{n};
      FinishStep(SetCell(s, n, st), clock, multiset{}, [], e);
    } else {
      ReportStep(SetCell(s, n, st), clock, multiset{n}, [], e);
    }
  }

  lemma PlaceKeeps(s: Sched, clock: nat, n: Name, st: CoroutineState)
    requires MidInv(s, clock, multiset{n}, []) && n in s.cells && s.cells[n] == st
    requires st.Suspended? || st.SystemCall?
    requires EndEvent(n, st) in s.log
    ensures Inv(Place(s, n, st, clock), clock)
  {
    assert Shape(s);
    hide MidInv, Registered;
    assert multiset{} + multiset{n} == multiset{n};
    if st.SystemCall? {
      RegisteredByEvent(s.log, EndEvent(n, st));
      SyscallStep(s, clock, multiset{}, [], n);
    } else if st.timestamp <= clock {
      PushStep(s, clock, multiset{}, [], n);
    } else {
      SuspendStep(s, clock, multiset{}, [], n, st.timestamp);
    }
  }

  /** The end of a stretch, the reaction of the listeners and the placement together. */
  lemma EndKeeps(s: Sched, clock: nat, n: Name, st: CoroutineState, reaction: seq<Effect>)
    requires MidInv(s, clock, multiset{n}, []) && HasEnded(st)
    requires FreshEffects(Conclude(s, n, st), reaction)
    ensures Inv(Place(DoEffects(Conclude(s, n, st), reaction), n, st, clock), clock)
  {
    assert Shape(s);
    hide MidInv, Conclude, DoEffects, FreshEffects;
    ConcludeKeeps(s, clock, n, st);
    ConcludeLost(s, n, st);
    var s3 := Conclude(s, n, st);
    if st.Complete? || st.Error? {
      EffectsKeep(s3, clock, multiset{}, reaction);
    } else {
      EffectsKeep(s3, clock, multiset{n}, reaction);
      assert n in multiset{n};
      hide Place;
      PlaceKeeps(DoEffects(s3, reaction), clock, n, st);
    }
  }

  /** The cell of `n` when its stretch ends, if it was resumed from state `st` at clock `now`. */
  function CellAtEnd(st: CoroutineState, now: nat, b: Stretch): CoroutineState {
    var run := ToRunning(st, now);
    HookRun(if run.Some? then run.value else st, Hooks(b.acts))
  }

  ghost predicate FreshStretch(s: Sched, n: Name, now1: nat, b: Stretch)
    requires s.me < |s.ready.locals| && n in s.cells
  {
    var run := ToRunning(s.cells[n], now1);
    run.Some? ==>
      && FreshActs(SetCell(Report(s, OnResume(n, s.cells[n])), n, run.value), n, b.acts)
      && var s2 := RunBody(s, n, now1, b);
         n in s2.cells ==>
           var st := AfterBody(s2.cells[n], b.end);
           st.Some? ==> FreshEffects(Conclude(s2, n, st.value), b.reaction)
  }

  /** While the body of `n` executes, `n` is in hand and everyone else is in one place. */
  lemma RunBodyKeeps(s: Sched, clock: nat, n: Name, now1: nat, b: Stretch)
    requires MidInv(s, clock, multiset{n}, []) && n in s.cells && Runnable(s.cells[n], clock) && clock <= now1
    requires FreshStretch(s, n, now1, b)
    ensures ToRunning(s.cells[n], now1).Some?
    ensures var s2 := RunBody(s, n, now1, b);
            && MidInv(s2, clock, multiset{n}, [])
            && n in s2.cells && s2.cells[n] == CellAtEnd(s.cells[n], now1, b)
            && InBody(s2.cells[n])
            && (AfterBody(s2.cells[n], b.end).None? <==> !b.end.Yields? && s2.cells[n] != Running)
            && s2.lost == s.lost
  {
    assert Shape(s);
    hide MidInv, HookRun, DoActs, FreshActs, FreshEffects, SetCell, Report;
    var st0 := s.cells[n];
    var run := ToRunning(st0, now1).value;
    var s1 := Report(s, OnResume(n, st0));
    ReportStep(s, clock, multiset{n}, [], OnResume(n, st0));
    CellStep(s1, clock, multiset{n}, [], n, run);
    ActsKeep(SetCell(s1, n, run), clock, n, b.acts);
    HookedBodyEnds(run, Hooks(b.acts), b.end);
    DoActsLost(SetCell(s1, n, run), n, b.acts);
  }

  /**
   * Resuming a runnable coroutine fails exactly when its body returns or panics inside a system
   * call; in every case each coroutine is still in one place.
   */
  lemma ResumeKeeps(s: Sched, clock: nat, n: Name, now1: nat, b: Stretch, now2: nat)
    requires MidInv(s, clock, multiset{n}, []) && n in s.cells && Runnable(s.cells[n], clock)
    requires clock <= now1 <= now2 && FreshStretch(s, n, now1, b)
    ensures var r := Resume(s, n, now1, b, now2);
            && Inv(r.sched, now2)
            && !r.Idle?
            && (r.Failed? <==> !b.end.Yields? && CellAtEnd(s.cells[n], now1, b) != Running)
            && r.sched.lost == s.lost + (if r.Failed? then [n] else [])
  {
    assert Shape(s);
    RunBodyKeeps(s, clock, n, now1, b);
    hide MidInv, RunBody, CellAtEnd, DoEffects, Place, FreshActs, FreshEffects, Drop, Conclude;
    var s2 := RunBody(s, n, now1, b);
    ClockStep(s2, clock, now2, multiset{n}, []);
    var st := AfterBody(s2.cells[n], b.end);
    assert multiset{} + multiset{n} == multiset{n};
    if st.None? {
      LoseStep(s2, now2, multiset{}, [], n);
    } else {
      EndKeeps(s2, now2, n, st.value, b.reaction);
      var s3 := Conclude(s2, n, st.value);
      ConcludeLost(s2, n, st.value);
      DoEffectsLost(s3, b.reaction);
      PlaceLost(DoEffects(s3, b.reaction), n, st.value, now2);
    }
  }

  lemma ConcludeLost(s: Sched, n: Name, st: CoroutineState)
    requires HasEnded(st)
    ensures var r := Conclude(s, n, st);
            r.lost == s.lost && r.me == s.me && r.ready == s.ready
  {
  }

  lemma PlaceLost(s: Sched, n: Name, st: CoroutineState, now: nat)
    requires s.me < |s.ready.locals|
    ensures Place(s, n, st, now).lost == s.lost
  {
  }

  lemma {:induction false} DoEffectsLost(s: Sched, es: seq<Effect>)
    requires s.me < |s.ready.locals|
    ensures DoEffects(s, es).lost == s.lost
    decreases |es|
  {
    if es != [] {
      DoEffectsLost(DoEffect(s, es[0]), es[1..]);
    }
  }

  lemma {:induction false} DoActsLost(s: Sched, n: Name, acts: seq<Act>)
    requires s.me < |s.ready.locals|
    ensures DoActs(s, n, acts).lost == s.lost
    decreases |acts|
  {
    if acts != [] {
      DoActsLost(ActStep(s, n, acts[0]), n, acts[1..]);
    }
  }

  /** The coroutine that a turn would resume. */
  function Chosen(s: Sched, r: Readings): Option<Name>
    requires s.me < |s.ready.locals| && 1 <= s.ready.capacity
  {
    CheckReadyShape(s, r.cut1, r.cut2);
    var s1 := CheckReady(s, r.cut1, r.cut2);
    WorkSteal.PopFront(s1.ready, s1.me, WorkSteal.NextTick(s1.tick), r.start).item
  }

  /** The scheduler at the moment it resumes the chosen coroutine. */
  function AtResume(s: Sched, r: Readings): Sched
    requires s.me < |s.ready.locals| && 1 <= s.ready.capacity
  {
    CheckReadyShape(s, r.cut1, r.cut2);
    var s1 := CheckReady(s, r.cut1, r.cut2);
    var t := WorkSteal.NextTick(s1.tick);
    s1.(ready := WorkSteal.PopFront(s1.ready, s1.me, t, r.start).queues, tick := t)
  }

  /** Clock readings never go back, and the steal scan starts inside the table. */
  ghost predicate Timely(s: Sched, clock: nat, r: Readings) {
    clock <= r.cut1 <= r.cut2 <= r.now1 <= r.now2 && r.start < |s.ready.locals|
  }

  ghost predicate FreshTurn(s: Sched, r: Readings, b: Stretch)
    requires s.me < |s.ready.locals| && 1 <= s.ready.capacity
  {
    var s1 := AtResume(s, r);
    Chosen(s, r).Some? && s1.me < |s1.ready.locals| && Chosen(s, r).value in s1.cells ==>
      FreshStretch(s1, Chosen(s, r).value, r.now1, b)
  }

  /** Up to the resume: the invariant holds with the chosen coroutine in hand, and it is runnable. */
  lemma ResumePoint(s: Sched, clock: nat, r: Readings)
    requires Inv(s, clock) && Timely(s, clock, r)
    ensures var s2 := AtResume(s, r);
            var p := Chosen(s, r);
            && Shape(s2)
            && s2.lost == s.lost
            && MidInv(s2, r.cut2, WorkSteal.ItemsOf(p), [])
            && (p.Some? ==> p.value in s2.cells && Runnable(s2.cells[p.value], r.cut2))
            && (p.None? <==> WorkSteal.Content(CheckReady(s, r.cut1, r.cut2).ready) == multiset{})
  {
    ClockStep(s, clock, r.cut2, multiset{}, []);
    assert Shape(s);
    hide MidInv, WorkSteal.PopFront;
    CheckReadyKeeps(s, r.cut2, r.cut1, r.cut2);
    CheckReadyShape(s, r.cut1, r.cut2);
    hide CheckReady;
    PopStep(CheckReady(s, r.cut1, r.cut2), r.cut2, r.start);
    ShapeOf(AtResume(s, r), r.cut2, WorkSteal.ItemsOf(Chosen(s, r)));
  }

  lemma ShapeOf(s: Sched, clock: nat, held: multiset<Name>)
    requires MidInv(s, clock, held, [])
    ensures Shape(s)
  {
  }

  /**
   * One turn of the scheduling loop under a nondecreasing clock: the invariant holds again, the turn
   * is idle exactly when nothing is ready, and it fails exactly when the resumed body finishes
   * inside a system call. No other error path of the loop is ever taken.
   */
  lemma TurnKeeps(s: Sched, clock: nat, r: Readings, b: Stretch)
    requires Inv(s, clock) && Timely(s, clock, r) && FreshTurn(s, r, b)
    ensures var s1 := AtResume(s, r);
            var t := Turn(s, r, b);
            && Inv(t.sched, r.now2)
            && (t.Idle? <==> WorkSteal.Content(CheckReady(s, r.cut1, r.cut2).ready) == multiset{})
            && (t.Idle? <==> Chosen(s, r).None?)
            && (Chosen(s, r).Some? ==> Chosen(s, r).value in s1.cells)
            && (t.Failed? <==>
                  && Chosen(s, r).Some? && !b.end.Yields?
                  && CellAtEnd(s1.cells[Chosen(s, r).value], r.now1, b) != Running)
            && t.sched.lost == s.lost + (if t.Failed? then [Chosen(s, r).value] else [])
  {
    assert Shape(s);
    ResumePoint(s, clock, r);
    hide MidInv, CheckReady, WorkSteal.PopFront, FreshStretch, Resume;
    var s2 := AtResume(s, r);
    match Chosen(s, r)
    case None =>
      ClockStep(s2, r.cut2, r.now2, multiset{}, []);
    case Some(n) =>
      ResumeKeeps(s2, r.cut2, n, r.now1, b, r.now2);
  }
}
