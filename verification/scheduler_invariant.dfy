// What every step of the scheduler keeps: each coroutine in exactly one place, in a state that fits it.
module SchedulerInvariant {
  import opened Constants
  import opened StateMachine
  import opened SchedulerModel
  import Timer
  import WorkSteal

  ghost function CreatedIn(log: seq<Event>): multiset<Name> {
    if log == [] then multiset{} else
    var e := log[|log| - 1];
    CreatedIn(log[..|log| - 1]) + if e.OnCreate? then multiset{e.name} else multiset{}
  }

  /** The coroutines reported to `on_complete` or `on_error`, with the number of reports. */
  ghost function FinishedIn(log: seq<Event>): multiset<Name> {
    if log == [] then multiset{} else
    var e := log[|log| - 1];
    FinishedIn(log[..|log| - 1]) + if e.OnComplete? || e.OnError? then multiset{e.name} else multiset{}
  }

  lemma LogStep(log: seq<Event>, e: Event)
    ensures CreatedIn(log + [e]) == CreatedIn(log) + if e.OnCreate? then multiset{e.name} else multiset{}
    ensures FinishedIn(log + [e]) ==
            FinishedIn(log) + if e.OnComplete? || e.OnError? then multiset{e.name} else multiset{}
  {
    assert (log + [e])[..|log|] == log;
  }

  /** In how many places coroutine `n` is: queued, suspended, in a system call, finished or dropped. */
  ghost function Places(s: Sched, n: Name): nat {
    WorkSteal.Content(s.ready)[n] + Timer.Held(s.suspend)[n] + (if n in s.syscall then 1 else 0)
    + FinishedIn(s.log)[n] + multiset(s.lost)[n]
  }

  ghost predicate OnePlace(s: Sched, held: multiset<Name>, n: Name) {
    Places(s, n) + held[n] == CreatedIn(s.log)[n] <= 1
  }

  /** Every submitted coroutine is in one place, or held by the step under way; no other is anywhere. */
  ghost predicate Census(s: Sched, held: multiset<Name>) {
    forall n :: OnePlace(s, held, n)
  }

  ghost predicate Known(s: Sched) {
    forall n :: n in s.cells <==> n in CreatedIn(s.log)
  }

  /** The states in which a coroutine may be popped and resumed at clock `clock`. */
  ghost predicate Runnable(st: CoroutineState, clock: nat) {
    match st
    case Ready => true
    case Suspended(t) => t <= clock
    case SystemCall(_, sub) => !sub.Suspend?
    case _ => false
  }

  ghost predicate ReadyOk(s: Sched, clock: nat) {
    forall n | n in WorkSteal.Content(s.ready) :: n in s.cells && Runnable(s.cells[n], clock)
  }

  ghost predicate SuspendOk(s: Sched) {
    forall k, n | k in s.suspend && n in s.suspend[k].inner :: n in s.cells && s.cells[n] == Suspended(k)
  }

  ghost predicate Filed(d: Timer.Entries<Name>, t: nat, n: Name) {
    t in d && n in d[t].inner
  }

  ghost predicate SyscallOk(s: Sched, owed: seq<Name>) {
    forall n | n in s.syscall ::
      && s.syscall[n] == n && n in s.cells && s.cells[n].SystemCall?
      && (s.cells[n].sub.Suspend? ==> Filed(s.deadlines, s.cells[n].sub.until, n) || n in owed)
  }

  /** Coroutine `n` told its listener that it suspends inside a system call until `k`. */
  ghost predicate Registered(log: seq<Event>, n: Name, k: nat) {
    exists e :: e in log && e.OnSyscall? && e.name == n && e.sub == Suspend(k)
  }

  ghost predicate DeadlinesOk(s: Sched) {
    forall k, n | k in s.deadlines && n in s.deadlines[k].inner :: Registered(s.log, n, k)
  }

  ghost predicate Shape(s: Sched) {
    WorkSteal.WellFormed(s.ready) && s.me < |s.ready.locals| && s.tick < WorkSteal.TICK_LIMIT
  }

  /**
   * The invariant in the middle of a step: `held` are the coroutines in nobody's container, and
   * `owed` are names taken out of the deadline list but not looked at yet.
   */
  ghost predicate MidInv(s: Sched, clock: nat, held: multiset<Name>, owed: seq<Name>) {
    && Shape(s) && Census(s, held) && Known(s) && ReadyOk(s, clock)
    && SuspendOk(s) && SyscallOk(s, owed) && DeadlinesOk(s)
  }

  ghost predicate Inv(s: Sched, clock: nat) {
    MidInv(s, clock, multiset{}, [])
  }

  // ---------- small steps ----------

  /** A held coroutine is in no container. */
  lemma HeldIsApart(s: Sched, clock: nat, held: multiset<Name>, owed: seq<Name>, n: Name)
    requires MidInv(s, clock, held, owed) && n in held
    ensures n in s.cells && n !in WorkSteal.Content(s.ready) && n !in s.syscall && n !in Timer.Held(s.suspend)
    ensures forall k | k in s.suspend :: n !in s.suspend[k].inner
    ensures held[n] == 1
  {
    hide WorkSteal.Content, Timer.Held, CreatedIn, FinishedIn;
    assert OnePlace(s, held, n);
    Timer.InHeld(s.suspend, n);
  }

  lemma PushStep(s: Sched, clock: nat, held: multiset<Name>, owed: seq<Name>, n: Name)
    requires MidInv(s, clock, held + multiset{n}, owed)
    requires n in s.cells && Runnable(s.cells[n], clock)
    ensures MidInv(Push(s, n), clock, held, owed)
  {
    hide WorkSteal.Content, WorkSteal.PushBack, Timer.Held, CreatedIn, FinishedIn;
    WorkSteal.PushConserves(s.ready, s.me, n);
    WorkSteal.SharedGrows(s.ready, s.me, n);
    var s' := Push(s, n);
    assert Census(s', held) by {
      forall m ensures OnePlace(s', held, m) {
        assert OnePlace(s, held + multiset{n}, m);
      }
    }
    hide Census, Runnable;
  }

  lemma CellStep(s: Sched, clock: nat, held: multiset<Name>, owed: seq<Name>, n: Name, st: CoroutineState)
    requires MidInv(s, clock, held, owed) && n in held
    ensures MidInv(SetCell(s, n, st), clock, held, owed)
  {
    hide WorkSteal.Content, Timer.Held, CreatedIn, FinishedIn;
    HeldIsApart(s, clock, held, owed, n);
    var s' := SetCell(s, n, st);
    assert Census(s', held) by {
      forall m ensures OnePlace(s', held, m) {
        assert OnePlace(s, held, m);
      }
    }
    hide Census, Runnable;
  }

  lemma UnmapStep(s: Sched, clock: nat, held: multiset<Name>, owed: seq<Name>, n: Name)
    requires MidInv(s, clock, held, owed) && n in s.syscall
    ensures MidInv(s.(syscall := s.syscall - {n}), clock, held + multiset{n}, owed)
  {
    hide WorkSteal.Content, Timer.Held, CreatedIn, FinishedIn;
    var s' := s.(syscall := s.syscall - {n});
    assert Census(s', held + multiset{n}) by {
      forall m ensures OnePlace(s', held + multiset{n}, m) {
        assert OnePlace(s, held, m);
      }
    }
    hide Census, Runnable;
  }

  lemma CreateStep(s: Sched, clock: nat, held: multiset<Name>, owed: seq<Name>, n: Name)
    requires MidInv(s, clock, held, owed) && n !in s.cells
    ensures MidInv(Report(SetCell(s, n, Ready), OnCreate(n)), clock, held + multiset{n}, owed)
  {
    hide WorkSteal.Content, Timer.Held, CreatedIn, FinishedIn;
    var s' := Report(SetCell(s, n, Ready), OnCreate(n));
    CreateCensus(s, held, n);
    LogStep(s.log, OnCreate(n));
    assert Places(s, n) == 0 by { assert OnePlace(s, held, n); }
    hide Census, Runnable;
    Timer.InHeld(s.suspend, n);
    DeadlinesKept(s, s', OnCreate(n));
    hide Registered;
  }

  lemma CreateCensus(s: Sched, held: multiset<Name>, n: Name)
    requires Census(s, held) && Known(s) && n !in s.cells
    ensures Census(Report(SetCell(s, n, Ready), OnCreate(n)), held + multiset{n})
    ensures CreatedIn(s.log)[n] == 0
  {
    hide WorkSteal.Content, Timer.Held, CreatedIn, FinishedIn;
    var s' := Report(SetCell(s, n, Ready), OnCreate(n));
    LogStep(s.log, OnCreate(n));
    forall m ensures OnePlace(s', held + multiset{n}, m) {
      assert OnePlace(s, held, m);
    }
  }

  lemma RegisteredGrows(log: seq<Event>, e: Event, n: Name, k: nat)
    requires Registered(log, n, k)
    ensures Registered(log + [e], n, k)
  {
    var r :| r in log && r.OnSyscall? && r.name == n && r.sub == Suspend(k);
    assert r in log + [e];
  }

  /** A longer log keeps every registration. */
  lemma DeadlinesKept(s: Sched, s': Sched, e: Event)
    requires DeadlinesOk(s) && s'.deadlines == s.deadlines && s'.log == s.log + [e]
    ensures DeadlinesOk(s')
  {
    forall k, n | k in s.deadlines && n in s.deadlines[k].inner ensures Registered(s'.log, n, k) {
      RegisteredGrows(s.log, e, n, k);
    }
  }

  /** Reporting an event that neither creates nor finishes a coroutine. */
  lemma ReportStep(s: Sched, clock: nat, held: multiset<Name>, owed: seq<Name>, e: Event)
    requires MidInv(s, clock, held, owed)
    requires e.OnResume? || e.OnSuspend? || e.OnSyscall?
    ensures MidInv(Report(s, e), clock, held, owed)
  {
    hide WorkSteal.Content, Timer.Held, CreatedIn, FinishedIn;
    var s' := Report(s, e);
    LogStep(s.log, e);
    DeadlinesKept(s, s', e);
    hide Registered;
    assert Census(s', held) by {
      forall m ensures OnePlace(s', held, m) {
        assert OnePlace(s, held, m);
      }
    }
    hide Census, Runnable;
  }

  lemma FinishStep(s: Sched, clock: nat, held: multiset<Name>, owed: seq<Name>, e: Event)
    requires MidInv(s, clock, held + multiset{e.name}, owed)
    requires e.OnComplete? || e.OnError?
    ensures MidInv(Report(s, e), clock, held, owed)
  {
    hide WorkSteal.Content, Timer.Held, CreatedIn, FinishedIn;
    var s' := Report(s, e);
    LogStep(s.log, e);
    DeadlinesKept(s, s', e);
    FinishCensus(s, held, e);
    hide Registered, Census, Runnable;
  }

  lemma FinishCensus(s: Sched, held: multiset<Name>, e: Event)
    requires Census(s, held + multiset{e.name}) && (e.OnComplete? || e.OnError?)
    ensures Census(Report(s, e), held)
  {
    hide WorkSteal.Content, Timer.Held, CreatedIn, FinishedIn;
    LogStep(s.log, e);
    forall m ensures OnePlace(Report(s, e), held, m) {
      assert OnePlace(s, held + multiset{e.name}, m);
    }
  }

  lemma LoseStep(s: Sched, clock: nat, held: multiset<Name>, owed: seq<Name>, n: Name)
    requires MidInv(s, clock, held + multiset{n}, owed)
    ensures MidInv(Drop(s, n), clock, held, owed)
  {
    hide WorkSteal.Content, Timer.Held, CreatedIn, FinishedIn;
    var s' := Drop(s, n);
    assert Census(s', held) by {
      forall m ensures OnePlace(s', held, m) {
        assert OnePlace(s, held + multiset{n}, m);
      }
    }
    hide Census, Runnable;
  }

  lemma SuspendStep(s: Sched, clock: nat, held: multiset<Name>, owed: seq<Name>, n: Name, t: nat)
    requires MidInv(s, clock, held + multiset{n}, owed)
    requires n in s.cells && s.cells[n] == Suspended(t)
    ensures MidInv(s.(suspend := Timer.Insert(s.suspend, t, n)), clock, held, owed)
  {
    hide WorkSteal.Content, Timer.Held, CreatedIn, FinishedIn;
    var s' := s.(suspend := Timer.Insert(s.suspend, t, n));
    Timer.HeldInsert(s.suspend, t, n);
    assert Census(s', held) by {
      forall m ensures OnePlace(s', held, m) {
        assert OnePlace(s, held + multiset{n}, m);
      }
    }
    hide Census, Runnable;
  }

  /** Filing the deadline of a coroutine that reported it. */
  lemma FileStep(s: Sched, clock: nat, held: multiset<Name>, owed: seq<Name>, n: Name, t: nat)
    requires MidInv(s, clock, held, owed) && Registered(s.log, n, t)
    ensures MidInv(s.(deadlines := Timer.Insert(s.deadlines, t, n)), clock, held, owed)
    ensures Filed(Timer.Insert(s.deadlines, t, n), t, n)
  {
    hide WorkSteal.Content, Timer.Held, CreatedIn, FinishedIn, Registered, Runnable;
    var s' := s.(deadlines := Timer.Insert(s.deadlines, t, n));
    assert Census(s', held) by {
      forall m ensures OnePlace(s', held, m) {
        assert OnePlace(s, held, m);
      }
    }
    hide Census;
  }

  lemma MapStep(s: Sched, clock: nat, held: multiset<Name>, owed: seq<Name>, n: Name)
    requires MidInv(s, clock, held + multiset{n}, owed)
    requires n in s.cells && s.cells[n].SystemCall?
    requires s.cells[n].sub.Suspend? ==> Filed(s.deadlines, s.cells[n].sub.until, n)
    ensures MidInv(s.(syscall := s.syscall[n := n]), clock, held, owed)
  {
    hide WorkSteal.Content, Timer.Held, CreatedIn, FinishedIn, Registered, Runnable;
    HeldIsApart(s, clock, held + multiset{n}, owed, n);
    var s' := s.(syscall := s.syscall[n := n]);
    assert Census(s', held) by {
      forall m ensures OnePlace(s', held, m) {
        assert OnePlace(s, held + multiset{n}, m);
      }
    }
    hide Census;
  }

  lemma SyscallStep(s: Sched, clock: nat, held: multiset<Name>, owed: seq<Name>, n: Name)
    requires MidInv(s, clock, held + multiset{n}, owed)
    requires n in s.cells && s.cells[n].SystemCall?
    requires s.cells[n].sub.Suspend? ==> Registered(s.log, n, s.cells[n].sub.until)
    ensures MidInv(Place(s, n, s.cells[n], clock), clock, held, owed)
  {
    assert Shape(s);
    hide MidInv, Registered;
    if s.cells[n].sub.Suspend? {
      var t := s.cells[n].sub.until;
      FileStep(s, clock, held + multiset{n}, owed, n, t);
      MapStep(s.(deadlines := Timer.Insert(s.deadlines, t, n)), clock, held, owed, n);
    } else {
      MapStep(s, clock, held, owed, n);
    }
  }

  /** Taking the due part out of the suspend list puts it in the hands of the step. */
  lemma DueStep(s: Sched, clock: nat, cut: nat)
    requires Inv(s, clock) && cut <= clock
    ensures MidInv(s.(suspend := Timer.Later(s.suspend, cut)), clock, multiset(Timer.Due(s.suspend, cut)), [])
    ensures forall n | n in Timer.Due(s.suspend, cut) ::
              n in s.cells && s.cells[n].Suspended? && s.cells[n].timestamp <= cut
  {
    hide WorkSteal.Content, Timer.Due, Timer.Held, CreatedIn, FinishedIn;
    var s' := s.(suspend := Timer.Later(s.suspend, cut));
    var due := Timer.Due(s.suspend, cut);
    Timer.HeldSplit(s.suspend, cut);
    assert Census(s', multiset(due)) by {
      forall m ensures OnePlace(s', multiset(due), m) {
        assert OnePlace(s, multiset{}, m);
      }
    }
    hide Census, Runnable;
    forall n | n in due ensures n in s.cells && s.cells[n].Suspended? && s.cells[n].timestamp <= cut {
      Timer.InDue(s.suspend, cut, n);
    }
  }

  lemma DeadlineStep(s: Sched, clock: nat, cut: nat)
    requires Inv(s, clock)
    ensures MidInv(s.(deadlines := Timer.Later(s.deadlines, cut)), clock, multiset{}, Timer.Due(s.deadlines, cut))
  {
    hide WorkSteal.Content, Timer.Due, Timer.Held, CreatedIn, FinishedIn;
    var s' := s.(deadlines := Timer.Later(s.deadlines, cut));
    assert Census(s', multiset{}) by {
      forall m ensures OnePlace(s', multiset{}, m) {
        assert OnePlace(s, multiset{}, m);
      }
    }
    hide Census, Runnable;
    forall n | n in s.syscall && s.cells[n].sub.Suspend?
      ensures Filed(s'.deadlines, s.cells[n].sub.until, n) || n in Timer.Due(s.deadlines, cut)
    {
      Timer.InDue(s.deadlines, cut, n);
    }
  }

  lemma PopCensus(s: Sched, q: WorkSteal.Queues<Name>, t: nat, items: multiset<Name>)
    requires Census(s, multiset{}) && WorkSteal.Content(s.ready) == WorkSteal.Content(q) + items
    ensures Census(s.(ready := q, tick := t), items)
  {
    hide WorkSteal.Content, Timer.Held, CreatedIn, FinishedIn;
    forall m ensures OnePlace(s.(ready := q, tick := t), items, m) {
      assert OnePlace(s, multiset{}, m);
    }
  }

  lemma PopStep(s: Sched, clock: nat, start: nat)
    requires Inv(s, clock) && start < |s.ready.locals|
    ensures var t := WorkSteal.NextTick(s.tick);
            var p := WorkSteal.PopFront(s.ready, s.me, t, start);
            && MidInv(s.(ready := p.queues, tick := t), clock, WorkSteal.ItemsOf(p.item), [])
            && (p.item.Some? ==> p.item.value in s.cells && Runnable(s.cells[p.item.value], clock))
            && (p.item.None? <==> WorkSteal.Content(s.ready) == multiset{})
  {
    hide WorkSteal.Content, WorkSteal.PopFront, Timer.Held, CreatedIn, FinishedIn;
    var t := WorkSteal.NextTick(s.tick);
    var p := WorkSteal.PopFront(s.ready, s.me, t, start);
    WorkSteal.PopConserves(s.ready, s.me, t, start);
    WorkSteal.PopNoneIffEmpty(s.ready, s.me, t, start);
    PopCensus(s, p.queues, t, WorkSteal.ItemsOf(p.item));
    hide Census, Runnable;
    if p.item.Some? {
      assert p.item.value in WorkSteal.Content(s.ready);
    }
  }

  lemma ClockStep(s: Sched, clock: nat, clock': nat, held: multiset<Name>, owed: seq<Name>)
    requires MidInv(s, clock, held, owed) && clock <= clock'
    ensures MidInv(s, clock', held, owed)
  {
    hide WorkSteal.Content, Timer.Held, CreatedIn, FinishedIn;
  }
}
