// The language of listener callbacks: what one coroutine goes through in every run of a scheduler.
module SchedulerLifecycle {
  import opened Constants
  import opened StateMachine
  import opened SchedulerModel
  import opened SchedulerInvariant
  import opened SchedulerRuns
  import opened SchedulerTheorems
  import Timer
  import WorkSteal

  datatype Phase =
    | Unborn
    | Queued
    | Active
    | Asleep(until: nat)
    | InCall(call: Syscall, sub: SyscallState)
    | Done
    | Broken

  /** How the sub-state of a waiting system call may have changed when the coroutine is resumed. */
  predicate LegalWake(before: SyscallState, after: SyscallState) {
    after == Computing || after == if before.Suspend? then Timeout else before
  }

  /** The automaton that accepts the callbacks about one coroutine; `Broken` is its error state. */
  function PhaseStep(ph: Phase, e: Event): Phase {
    match (ph, e)
    case (Unborn, OnCreate(_)) => Queued
    case (Queued, OnResume(_, Ready)) => Active
    case (Asleep(_), OnResume(_, Ready)) => Active
    case (Asleep(t), OnResume(_, Suspended(t'))) => if t == t' then Active else Broken
    case (InCall(call, sub), OnResume(_, SystemCall(call', sub'))) =>
      if call == call' && LegalWake(sub, sub') then Active else Broken
    case (Active, OnSuspend(_, t)) => Asleep(t)
    case (Active, OnSyscall(_, call, sub)) => InCall(call, sub)
    case (Active, OnComplete(_)) => Done
    case (Active, OnError(_, _)) => Done
    case _ => Broken
  }

  function PhaseOf(log: seq<Event>, n: Name): Phase {
    if log == [] then Unborn else
    var e := log[|log| - 1];
    var ph := PhaseOf(log[..|log| - 1], n);
    if e.name == n then PhaseStep(ph, e) else ph
  }

  lemma PhaseSnoc(log: seq<Event>, e: Event, n: Name)
    ensures PhaseOf(log + [e], n) == if e.name == n then PhaseStep(PhaseOf(log, n), e) else PhaseOf(log, n)
  {
    assert (log + [e])[..|log|] == log;
  }

  /** The phase that the callbacks suggest agrees with the state cell of a coroutine at rest. */
  ghost predicate Fits(ph: Phase, cell: CoroutineState, mapped: bool) {
    match ph
    case Queued => cell == Ready && !mapped
    case Asleep(t) => (cell == Ready || cell == Suspended(t)) && !mapped
    case InCall(call, sub) =>
      cell.SystemCall? && cell.call == call && (if mapped then cell.sub == sub else LegalWake(sub, cell.sub))
    case _ => false
  }

  /** `Acting`: its body runs. `Leaving`: its end was reported but it is not in a container yet. */
  datatype Mode = Settled | Acting | Leaving

  ghost predicate Life(s: Sched, n: Name, mode: Mode) {
    var ph := PhaseOf(s.log, n);
    if n !in s.cells then ph == Unborn
    else if mode == Acting then ph == Active
    else if mode == Leaving then
      (ph.Asleep? && s.cells[n] == Suspended(ph.until)) || (ph.InCall? && s.cells[n] == SystemCall(ph.call, ph.sub))
    else if n in s.lost then ph == Active
    else if n in FinishedIn(s.log) then ph == Done
    else Fits(ph, s.cells[n], n in s.syscall)
  }

  /** The facts about coroutine `n` that its life depends on. */
  ghost predicate Untouched(s: Sched, s': Sched, n: Name) {
    && (n in s'.cells <==> n in s.cells)
    && (n in s.cells ==> s'.cells[n] == s.cells[n])
    && PhaseOf(s'.log, n) == PhaseOf(s.log, n)
    && (n in s'.lost <==> n in s.lost)
    && (n in FinishedIn(s'.log) <==> n in FinishedIn(s.log))
    && (n in s'.syscall <==> n in s.syscall)
  }

  lemma UntouchedLife(s: Sched, s': Sched, n: Name, mode: Mode)
    requires Life(s, n, mode) && Untouched(s, s', n)
    ensures Life(s', n, mode)
  {
    hide PhaseOf, FinishedIn;
  }

  /** Where a coroutine at rest is, it is not also finished or dropped. */
  lemma RestingIsLive(s: Sched, clock: nat, held: multiset<Name>, owed: seq<Name>, n: Name)
    requires MidInv(s, clock, held, owed)
    ensures n in s.syscall || n in held || n in WorkSteal.Content(s.ready) ==> n !in s.lost && n !in FinishedIn(s.log)
    ensures n !in s.cells ==> n !in s.syscall && n !in s.lost && n !in FinishedIn(s.log) && n !in held
    ensures n in s.syscall ==> n !in held
  {
    assert OnePlace(s, held, n);
    hide PhaseOf, FinishedIn, CreatedIn, WorkSteal.Content, Timer.Held;
  }

  lemma SubmitSelf(s: Sched, clock: nat, held: multiset<Name>, n: Name, mode: Mode, s': Sched)
    requires MidInv(s, clock, held, []) && n !in s.cells && Life(s, n, mode) && (mode != Settled ==> n in held)
    requires s'.log == s.log + [OnCreate(n)] && s'.cells == s.cells[n := Ready]
    requires s'.lost == s.lost && s'.syscall == s.syscall
    ensures Life(s', n, mode)
  {
    hide MidInv, PhaseOf, FinishedIn, CreatedIn;
    RestingIsLive(s, clock, held, [], n);
    PhaseSnoc(s.log, OnCreate(n), n);
    LogStep(s.log, OnCreate(n));
  }

  lemma SubmitOther(s: Sched, x: Name, n: Name, mode: Mode, s': Sched)
    requires x != n && Life(s, n, mode)
    requires s'.log == s.log + [OnCreate(x)] && s'.cells == s.cells[x := Ready]
    requires s'.lost == s.lost && s'.syscall == s.syscall
    ensures Life(s', n, mode)
  {
    hide PhaseOf, FinishedIn, CreatedIn;
    PhaseSnoc(s.log, OnCreate(x), n);
    LogStep(s.log, OnCreate(x));
    UntouchedLife(s, s', n, mode);
  }

  lemma SubmitLife(s: Sched, clock: nat, held: multiset<Name>, x: Name, n: Name, mode: Mode)
    requires MidInv(s, clock, held, []) && x !in s.cells && Life(s, n, mode) && (mode != Settled ==> n in held)
    ensures Life(Submit(s, x), n, mode)
  {
    assert Shape(s);
    hide MidInv, Life, WorkSteal.PushBack;
    if x == n {
      SubmitSelf(s, clock, held, n, mode, Submit(s, x));
    } else {
      SubmitOther(s, x, n, mode, Submit(s, x));
    }
  }

  lemma TryResumeLife(s: Sched, clock: nat, held: multiset<Name>, x: Name, n: Name, mode: Mode)
    requires MidInv(s, clock, held, []) && Life(s, n, mode) && (mode != Settled ==> n in held)
    requires x in s.syscall ==> s.syscall[x] in s.cells
    ensures Life(TryResume(s, x), n, mode)
  {
    assert x in s.syscall ==> s.syscall[x] == x && s.cells[x].SystemCall?;
    RestingIsLive(s, clock, held, [], n);
    hide MidInv, Life, WorkSteal.PushBack;
    if x in s.syscall {
      var s' := TryResume(s, x);
      assert s'.cells == s.cells[x := SystemCall(s.cells[x].call, Computing)];
      if x == n {
        LeaveMapLife(s, clock, held, [], n, s', Computing);
      } else {
        OtherLife(s, s', x, SystemCall(s.cells[x].call, Computing), n, mode);
      }
    }
  }

  lemma EffectLife(s: Sched, clock: nat, held: multiset<Name>, e: Effect, n: Name, mode: Mode)
    requires MidInv(s, clock, held, []) && FreshEffect(s, e) && Life(s, n, mode) && (mode != Settled ==> n in held)
    ensures Life(DoEffect(s, e), n, mode)
  {
    match e
    case Spawn(x) => SubmitLife(s, clock, held, x, n, mode);
    case Wake(x) =>
      TryResumeKeeps(s, clock, held, x);
      TryResumeLife(s, clock, held, x, n, mode);
  }

  lemma {:induction false} EffectsLife(s: Sched, clock: nat, held: multiset<Name>, es: seq<Effect>, n: Name, mode: Mode)
    requires MidInv(s, clock, held, []) && FreshEffects(s, es) && Life(s, n, mode) && (mode != Settled ==> n in held)
    ensures Life(DoEffects(s, es), n, mode)
    decreases |es|
  {
    assert Shape(s);
    hide MidInv, Life;
    if es != [] {
      EffectKeeps(s, clock, held, es[0]);
      EffectLife(s, clock, held, es[0], n, mode);
      EffectsLife(DoEffect(s, es[0]), clock, held, es[1..], n, mode);
    }
  }

  /** The mode of `n` while `m` runs. */
  function ModeOf(m: Name, n: Name, mode: Mode): Mode {
    if m == n then mode else Settled
  }

  lemma HookLife(s: Sched, m: Name, st: CoroutineState, n: Name)
    requires m in s.cells && Life(s, n, ModeOf(m, n, Acting))
    ensures Life(SetCell(s, m, st), n, ModeOf(m, n, Acting))
  {
    if m != n {
      UntouchedLife(s, SetCell(s, m, st), n, Settled);
    }
  }

  lemma {:induction false} ActsLife(s: Sched, clock: nat, m: Name, acts: seq<Act>, n: Name)
    requires MidInv(s, clock, multiset{m}, []) && m in s.cells && FreshActs(s, m, acts)
    requires Life(s, n, ModeOf(m, n, Acting))
    ensures Life(DoActs(s, m, acts), n, ModeOf(m, n, Acting))
    decreases |acts|
  {
    assert Shape(s);
    hide MidInv, Life;
    if acts != [] {
      var s' := ActStep(s, m, acts[0]);
      match acts[0] {
        case Hook(h) =>
          CellStep(s, clock, multiset{m}, [], m, HookStep(s.cells[m], h));
          HookLife(s, m, HookStep(s.cells[m], h), n);
        case Do(e) =>
          EffectKeeps(s, clock, multiset{m}, e);
          EffectLife(s, clock, multiset{m}, e, n, ModeOf(m, n, Acting));
      }
      ActsLife(s', clock, m, acts[1..], n);
    }
  }

  /** A step on the cell and the mapping of `x` alone is no concern of another coroutine. */
  lemma OtherLife(s: Sched, s': Sched, x: Name, st: CoroutineState, n: Name, mode: Mode)
    requires x != n && Life(s, n, mode)
    requires s'.log == s.log && s'.lost == s.lost
    requires x in s.cells && s'.cells == s.cells[x := st]
    requires s'.syscall == s.syscall || s'.syscall == s.syscall - {x}
    ensures Life(s', n, mode)
  {
    hide PhaseOf, FinishedIn;
    UntouchedLife(s, s', n, mode);
  }

  /** A waiting coroutine that leaves the syscall map in a legal sub-state. */
  lemma LeaveMapLife(s: Sched, clock: nat, held: multiset<Name>, owed: seq<Name>, n: Name, s': Sched, sub: SyscallState)
    requires MidInv(s, clock, held, owed) && Life(s, n, Settled) && n in s.syscall
    requires s'.log == s.log && s'.lost == s.lost && s'.syscall == s.syscall - {n}
    requires n in s.cells && s.cells[n].SystemCall? && LegalWake(s.cells[n].sub, sub)
    requires s'.cells == s.cells[n := SystemCall(s.cells[n].call, sub)]
    ensures Life(s', n, Settled)
  {
    hide MidInv, PhaseOf, FinishedIn;
    RestingIsLive(s, clock, held, owed, n);
  }

  lemma WakeSelf(s: Sched, clock: nat, held: multiset<Name>, n: Name, s': Sched)
    requires MidInv(s, clock, held, []) && n in held && Life(s, n, Settled)
    requires n in s.cells && s.cells[n].Suspended?
    requires s'.log == s.log && s'.lost == s.lost && s'.syscall == s.syscall && s'.cells == s.cells[n := Ready]
    ensures Life(s', n, Settled)
  {
    hide MidInv, PhaseOf, FinishedIn;
    HeldIsApart(s, clock, held, [], n);
    RestingIsLive(s, clock, held, [], n);
  }

  lemma WakeOneLife(s: Sched, clock: nat, held: multiset<Name>, x: Name, n: Name)
    requires MidInv(s, clock, held, []) && x in held && Life(s, n, Settled)
    requires x in s.cells && s.cells[x].Suspended?
    ensures Life(Push(SetCell(s, x, Ready), x), n, Settled)
  {
    assert Shape(s);
    hide MidInv, Life, WorkSteal.PushBack;
    var s' := Push(SetCell(s, x, Ready), x);
    if x == n {
      WakeSelf(s, clock, held, n, s');
    } else {
      assert s'.cells == s.cells[x := Ready];
      OtherLife(s, s', x, Ready, n, Settled);
    }
  }

  lemma {:induction false} WakeDueLife(s: Sched, clock: nat, ns: seq<Name>, n: Name)
    requires MidInv(s, clock, multiset(ns), []) && Life(s, n, Settled)
    requires forall x | x in ns :: x in s.cells && s.cells[x].Suspended? && s.cells[x].timestamp <= clock
    ensures Life(WakeDue(s, ns), n, Settled)
    decreases |ns|
  {
    assert Shape(s);
    hide MidInv, Life;
    if ns != [] {
      var x, rest := ns[0], ns[1..];
      assert ns == [x] + rest;
      assert multiset(ns) == multiset(rest) + multiset{x};
      HeldIsApart(s, clock, multiset(ns), [], x);
      assert x !in rest;
      var s1 := SetCell(s, x, Ready);
      CellStep(s, clock, multiset(ns), [], x, Ready);
      PushStep(s1, clock, multiset(rest), [], x);
      WakeOneLife(s, clock, multiset(ns), x, n);
      WakeDueLife(Push(s1, x), clock, rest, n);
    }
  }

  lemma ExpireOneLife(s: Sched, clock: nat, owed: seq<Name>, x: Name, n: Name)
    requires MidInv(s, clock, multiset{}, owed) && Life(s, n, Settled)
    ensures Life(ExpireOne(s, x), n, Settled)
  {
    assert x in s.syscall ==> s.syscall[x] == x && x in s.cells && s.cells[x].SystemCall?;
    hide MidInv, Life, WorkSteal.PushBack;
    if x in s.syscall {
      var s' := ExpireOne(s, x);
      var sub := if s.cells[x].sub.Suspend? then Timeout else s.cells[x].sub;
      assert s'.cells == s.cells[x := SystemCall(s.cells[x].call, sub)];
      if x == n {
        LeaveMapLife(s, clock, multiset{}, owed, n, s', sub);
      } else {
        OtherLife(s, s', x, SystemCall(s.cells[x].call, sub), n, Settled);
      }
    }
  }

  lemma {:induction false} ExpireLife(s: Sched, clock: nat, ns: seq<Name>, n: Name)
    requires MidInv(s, clock, multiset{}, ns) && Life(s, n, Settled)
    ensures Life(Expire(s, ns), n, Settled)
    decreases |ns|
  {
    assert Shape(s);
    hide MidInv, Life;
    if ns != [] {
      ExpireOneKeeps(s, clock, ns, ns[0]);
      ExpireOneLife(s, clock, ns, ns[0], n);
      OwedStep(ExpireOne(s, ns[0]), clock, ns);
      ExpireLife(ExpireOne(s, ns[0]), clock, ns[1..], n);
    }
  }

  /** Cutting the two timer lists does not concern the life of a coroutine. */
  lemma CutLife(s: Sched, suspend: Timer.Entries<Name>, deadlines: Timer.Entries<Name>, n: Name)
    requires Life(s, n, Settled)
    ensures Life(s.(suspend := suspend, deadlines := deadlines), n, Settled)
  {
    UntouchedLife(s, s.(suspend := suspend, deadlines := deadlines), n, Settled);
  }

  lemma CheckReadyLife(s: Sched, clock: nat, cut1: nat, cut2: nat, n: Name)
    requires Inv(s, clock) && cut1 <= clock && Life(s, n, Settled)
    ensures Life(CheckReady(s, cut1, cut2), n, Settled)
  {
    assert Shape(s);
    hide MidInv, WakeDue, Expire, Timer.Due, Timer.Later, Life;
    var s0 := s.(suspend := Timer.Later(s.suspend, cut1));
    var due := Timer.Due(s.suspend, cut1);
    DueStep(s, clock, cut1);
    CutLife(s, s0.suspend, s.deadlines, n);
    WakeDueLife(s0, clock, due, n);
    WakeDueKeeps(s0, clock, due);
    var s1 := WakeDue(s0, due);
    WakeDueShape(s0, due);
    DeadlineStep(s1, clock, cut2);
    var s2 := s1.(deadlines := Timer.Later(s1.deadlines, cut2));
    CutLife(s1, s1.suspend, s2.deadlines, n);
    ExpireLife(s2, clock, Timer.Due(s1.deadlines, cut2), n);
  }

  lemma WelcomeSelf(s: Sched, clock: nat, n: Name)
    requires MidInv(s, clock, multiset{n}, []) && n in s.cells && Runnable(s.cells[n], clock)
    requires Life(s, n, Settled)
    ensures Life(Report(s, OnResume(n, s.cells[n])), n, Acting)
  {
    hide MidInv, PhaseOf, FinishedIn, CreatedIn;
    RestingIsLive(s, clock, multiset{n}, [], n);
    HeldIsApart(s, clock, multiset{n}, [], n);
    PhaseSnoc(s.log, OnResume(n, s.cells[n]), n);
  }

  lemma ReportOther(s: Sched, e: Event, n: Name)
    requires e.name != n && Life(s, n, Settled)
    ensures Life(Report(s, e), n, Settled)
  {
    hide PhaseOf, FinishedIn, CreatedIn;
    PhaseSnoc(s.log, e, n);
    LogStep(s.log, e);
    UntouchedLife(s, Report(s, e), n, Settled);
  }

  /** A runnable coroutine is resumed in a state that its phase allows. */
  lemma WelcomeLife(s: Sched, clock: nat, m: Name, n: Name)
    requires MidInv(s, clock, multiset{m}, []) && m in s.cells && Runnable(s.cells[m], clock)
    requires Life(s, n, Settled)
    ensures Life(Report(s, OnResume(m, s.cells[m])), n, ModeOf(m, n, Acting))
  {
    hide MidInv, Life;
    if m == n {
      WelcomeSelf(s, clock, n);
    } else {
      ReportOther(s, OnResume(m, s.cells[m]), n);
    }
  }

  lemma PartSelf(s: Sched, clock: nat, n: Name, st: CoroutineState, e: Event)
    requires MidInv(s, clock, multiset{n}, []) && n in s.cells && Life(s, n, Acting)
    requires HasEnded(st) && e == EndEvent(n, st)
    ensures var s3 := Report(SetCell(s, n, st), e);
            Life(s3, n, if st.Complete? || st.Error? then Settled else Leaving)
  {
    RestingIsLive(s, clock, multiset{n}, [], n);
    hide MidInv, PhaseOf, FinishedIn, CreatedIn;
    PhaseSnoc(s.log, e, n);
    LogStep(s.log, e);
  }

  lemma PartOther(s: Sched, m: Name, st: CoroutineState, e: Event, n: Name)
    requires m != n && e.name == m && m in s.cells && Life(s, n, Settled)
    ensures Life(Report(SetCell(s, m, st), e), n, Settled)
  {
    hide PhaseOf, FinishedIn, Fits;
    UntouchedLife(s, SetCell(s, m, st), n, Settled);
    ReportOther(SetCell(s, m, st), e, n);
  }

  /** Reporting the end of a stretch, and the end itself. */
  lemma PartLife(s: Sched, clock: nat, m: Name, st: CoroutineState, n: Name)
    requires MidInv(s, clock, multiset{m}, []) && m in s.cells && Life(s, n, ModeOf(m, n, Acting))
    requires HasEnded(st)
    ensures var s3 := Conclude(s, m, st);
            Life(s3, n, if st.Complete? || st.Error? then Settled else ModeOf(m, n, Leaving))
  {
    hide MidInv, Life;
    var e := EndEvent(m, st);
    if m == n {
      PartSelf(s, clock, n, st, e);
    } else {
      PartOther(s, m, st, e, n);
    }
  }

  lemma PlaceFields(s: Sched, n: Name, st: CoroutineState, now: nat)
    requires s.me < |s.ready.locals|
    ensures var s' := Place(s, n, st, now);
            && s'.log == s.log && s'.lost == s.lost && s'.cells == s.cells
            && s'.syscall == if st.SystemCall? then s.syscall[n := n] else s.syscall
  {
  }

  lemma PlaceSelf(s: Sched, clock: nat, n: Name, st: CoroutineState, now: nat)
    requires MidInv(s, clock, multiset{n}, []) && n in s.cells && s.cells[n] == st
    requires st.Suspended? || st.SystemCall?
    requires Life(s, n, Leaving)
    ensures Life(Place(s, n, st, now), n, Settled)
  {
    assert Shape(s);
    hide MidInv, PhaseOf, FinishedIn, Place;
    RestingIsLive(s, clock, multiset{n}, [], n);
    HeldIsApart(s, clock, multiset{n}, [], n);
    PlaceFields(s, n, st, now);
  }

  lemma PlaceOther(s: Sched, m: Name, st: CoroutineState, now: nat, n: Name)
    requires s.me < |s.ready.locals| && m != n && Life(s, n, Settled)
    ensures Life(Place(s, m, st, now), n, Settled)
  {
    hide PhaseOf, FinishedIn, WorkSteal.PushBack, Timer.Insert;
    UntouchedLife(s, Place(s, m, st, now), n, Settled);
  }

  lemma EndLife(s: Sched, clock: nat, m: Name, st: CoroutineState, reaction: seq<Effect>, now: nat, n: Name)
    requires MidInv(s, clock, multiset{m}, []) && m in s.cells && Life(s, n, ModeOf(m, n, Acting))
    requires HasEnded(st)
    requires FreshEffects(Conclude(s, m, st), reaction)
    ensures var s3 := Conclude(s, m, st);
            Life(Place(DoEffects(s3, reaction), m, st, now), n, Settled)
  {
    assert Shape(s);
    hide MidInv, Life, DoEffects, FreshEffects;
    var e := EndEvent(m, st);
    var s2 := SetCell(s, m, st);
    var s3 := Report(s2, e);
    CellStep(s, clock, multiset{m}, [], m, st);
    PartLife(s, clock, m, st, n);
    assert multiset{} + multiset{m} == multiset{m};
    if st.Complete? || st.Error? {
      FinishStep(s2, clock, multiset{}, [], e);
      EffectsLife(s3, clock, multiset{}, reaction, n, Settled);
    } else {
      ReportStep(s2, clock, multiset{m}, [], e);
      EffectsKeep(s3, clock, multiset{m}, reaction);
      EffectsLife(s3, clock, multiset{m}, reaction, n, ModeOf(m, n, Leaving));
      assert m in multiset{m};
      if m == n {
        PlaceSelf(DoEffects(s3, reaction), clock, n, st, now);
      } else {
        PlaceOther(DoEffects(s3, reaction), m, st, now, n);
      }
    }
  }

  lemma LoseLife(s: Sched, m: Name, n: Name)
    requires m in s.cells && Life(s, n, ModeOf(m, n, Acting))
    ensures Life(Drop(s, m), n, Settled)
  {
    if m != n {
      UntouchedLife(s, Drop(s, m), n, Settled);
    }
  }

  lemma ResumeLife(s: Sched, clock: nat, m: Name, now1: nat, b: Stretch, now2: nat, n: Name)
    requires MidInv(s, clock, multiset{m}, []) && m in s.cells && Runnable(s.cells[m], clock)
    requires clock <= now1 <= now2 && FreshStretch(s, m, now1, b) && Life(s, n, Settled)
    ensures Life(Resume(s, m, now1, b, now2).sched, n, Settled)
  {
    assert Shape(s);
    RunBodyKeeps(s, clock, m, now1, b);
    RunBodyLife(s, clock, m, now1, b, n);
    hide MidInv, Life, RunBody, DoEffects, Place, FreshActs, FreshEffects, Drop, Conclude;
    var s2 := RunBody(s, m, now1, b);
    var st := AfterBody(s2.cells[m], b.end);
    if st.None? {
      LoseLife(s2, m, n);
    } else {
      EndLife(s2, clock, m, st.value, b.reaction, now2, n);
    }
  }

  lemma RunBodyLife(s: Sched, clock: nat, m: Name, now1: nat, b: Stretch, n: Name)
    requires MidInv(s, clock, multiset{m}, []) && m in s.cells && Runnable(s.cells[m], clock) && clock <= now1
    requires FreshStretch(s, m, now1, b) && Life(s, n, Settled)
    ensures Life(RunBody(s, m, now1, b), n, ModeOf(m, n, Acting))
  {
    assert Shape(s);
    hide MidInv, Life, DoActs, FreshActs, FreshEffects, SetCell, Report;
    var st0 := s.cells[m];
    var run := ToRunning(st0, now1).value;
    var s1 := Report(s, OnResume(m, st0));
    WelcomeLife(s, clock, m, n);
    ReportStep(s, clock, multiset{m}, [], OnResume(m, st0));
    CellStep(s1, clock, multiset{m}, [], m, run);
    HookLife(s1, m, run, n);
    ActsLife(SetCell(s1, m, run), clock, m, b.acts, n);
  }

  lemma PopLife(s: Sched, q: WorkSteal.Queues<Name>, t: nat, n: Name)
    requires Life(s, n, Settled)
    ensures Life(s.(ready := q, tick := t), n, Settled)
  {
    UntouchedLife(s, s.(ready := q, tick := t), n, Settled);
  }

  lemma TurnLife(s: Sched, clock: nat, r: Readings, b: Stretch, n: Name)
    requires Inv(s, clock) && Timely(s, clock, r) && FreshTurn(s, r, b) && Life(s, n, Settled)
    ensures Life(Turn(s, r, b).sched, n, Settled)
  {
    ClockStep(s, clock, r.cut2, multiset{}, []);
    assert Shape(s);
    ResumePoint(s, clock, r);
    CheckReadyShape(s, r.cut1, r.cut2);
    hide MidInv, CheckReady, WorkSteal.PopFront, Life, Resume, FreshStretch;
    CheckReadyLife(s, r.cut2, r.cut1, r.cut2, n);
    var s2 := AtResume(s, r);
    PopLife(CheckReady(s, r.cut1, r.cut2), s2.ready, s2.tick, n);
    if Chosen(s, r).Some? {
      ResumeLife(s2, r.cut2, Chosen(s, r).value, r.now1, b, r.now2, n);
    }
  }

  lemma MoveLife(s: Sched, clock: nat, m: Move, n: Name)
    requires Inv(s, clock) && Legal(s, clock, m) && Life(s, n, Settled)
    ensures Life(Apply(s, m), n, Settled)
  {
    assert Shape(s);
    hide MidInv, Life;
    match m
    case MSubmit(x) => EffectLife(s, clock, multiset{}, Spawn(x), n, Settled);
    case MWake(x) => EffectLife(s, clock, multiset{}, Wake(x), n, Settled);
    case MTurn(r, b) => TurnLife(s, clock, r, b, n);
  }

  /**
   * In every run the callbacks about every coroutine follow the automaton: it is created once, is
   * resumed only from a rest, comes back from a suspension inside a system call in `Timeout` or
   * `Computing` of the same call, and is reported complete or failed at most once and then never
   * mentioned again.
   */
  lemma {:induction false} RunLife(s: Sched, clock: nat, ms: seq<Move>, n: Name)
    requires Inv(s, clock) && LegalRun(s, clock, ms) && Life(s, n, Settled)
    ensures Life(Run(s, clock, ms).0, n, Settled)
    ensures PhaseOf(Run(s, clock, ms).0.log, n) != Broken
    decreases |ms|
  {
    assert Shape(s);
    if ms == [] {
      hide PhaseOf, FinishedIn;
    } else {
      hide MidInv, Life;
      MoveKeeps(s, clock, ms[0]);
      MoveLife(s, clock, ms[0], n);
      RunLife(Apply(s, ms[0]), ClockAfter(clock, ms[0]), ms[1..], n);
    }
  }

  lemma StartLife(size: nat, capacity: nat, me: nat, n: Name)
    ensures Life(Start(size, capacity, me), n, Settled)
  {
  }
}
