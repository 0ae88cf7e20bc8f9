// Runs of one scheduler, and what the invariant says about every state they reach.
module SchedulerTheorems {
  import opened Constants
  import opened StateMachine
  import opened SchedulerModel
  import opened SchedulerInvariant
  import opened SchedulerRuns
  import Timer
  import WorkSteal

  function Start(size: nat, capacity: nat, me: nat): Sched {
    Sched(WorkSteal.Queues([], seq(size, _ => []), capacity), me, 0, map[], map[], map[], map[], [], [])
  }

  lemma StartInv(size: nat, capacity: nat, me: nat)
    requires me < size && 1 <= capacity
    ensures Inv(Start(size, capacity, me), 0)
  {
    var s := Start(size, capacity, me);
    WorkSteal.BagEmpty(s.ready.locals);
    forall n ensures OnePlace(s, multiset{}, n) {
    }
  }

  /** What can happen between two loop heads: an outside submission, a wake-up by name, or a turn. */
  datatype Move = MSubmit(name: Name) | MWake(name: Name) | MTurn(readings: Readings, stretch: Stretch)

  function Apply(s: Sched, m: Move): Sched
    requires s.me < |s.ready.locals| && 1 <= s.ready.capacity
  {
    match m
    case MSubmit(n) => DoEffect(s, Spawn(n))
    case MWake(n) => DoEffect(s, Wake(n))
    case MTurn(r, b) => Turn(s, r, b).sched
  }

  function ClockAfter(clock: nat, m: Move): nat {
    if m.MTurn? then m.readings.now2 else clock
  }

  ghost predicate Legal(s: Sched, clock: nat, m: Move)
    requires s.me < |s.ready.locals| && 1 <= s.ready.capacity
  {
    match m
    case MSubmit(n) => FreshEffect(s, Spawn(n))
    case MWake(_) => true
    case MTurn(r, b) => Timely(s, clock, r) && FreshTurn(s, r, b)
  }

  lemma MoveKeeps(s: Sched, clock: nat, m: Move)
    requires Inv(s, clock) && Legal(s, clock, m)
    ensures Inv(Apply(s, m), ClockAfter(clock, m))
  {
    assert Shape(s);
    hide MidInv;
    match m
    case MSubmit(n) => EffectKeeps(s, clock, multiset{}, Spawn(n));
    case MWake(n) => EffectKeeps(s, clock, multiset{}, Wake(n));
    case MTurn(r, b) => TurnKeeps(s, clock, r, b);
  }

  ghost predicate LegalRun(s: Sched, clock: nat, ms: seq<Move>)
    requires Inv(s, clock)
    decreases |ms|
  {
    ms == [] ||
    (&& Legal(s, clock, ms[0])
     && (MoveKeeps(s, clock, ms[0]); LegalRun(Apply(s, ms[0]), ClockAfter(clock, ms[0]), ms[1..])))
  }

  ghost function Run(s: Sched, clock: nat, ms: seq<Move>): (Sched, nat)
    requires Inv(s, clock) && LegalRun(s, clock, ms)
    decreases |ms|
  {
    if ms == [] then (s, clock) else
    MoveKeeps(s, clock, ms[0]);
    Run(Apply(s, ms[0]), ClockAfter(clock, ms[0]), ms[1..])
  }

  /** The invariant holds at every loop head of every run. */
  lemma {:induction false} RunKeeps(s: Sched, clock: nat, ms: seq<Move>)
    requires Inv(s, clock) && LegalRun(s, clock, ms)
    ensures Inv(Run(s, clock, ms).0, Run(s, clock, ms).1)
    decreases |ms|
  {
    if ms != [] {
      MoveKeeps(s, clock, ms[0]);
      RunKeeps(Apply(s, ms[0]), ClockAfter(clock, ms[0]), ms[1..]);
    }
  }

  /** Unfolding a run by its first move. */
  lemma RunBack(s: Sched, clock: nat, ms: seq<Move>)
    requires Inv(s, clock) && ms != [] && Legal(s, clock, ms[0])
    ensures Inv(Apply(s, ms[0]), ClockAfter(clock, ms[0]))
    ensures LegalRun(s, clock, ms) <==> LegalRun(Apply(s, ms[0]), ClockAfter(clock, ms[0]), ms[1..])
    ensures LegalRun(s, clock, ms) ==>
              Run(s, clock, ms) == Run(Apply(s, ms[0]), ClockAfter(clock, ms[0]), ms[1..])
  {
    MoveKeeps(s, clock, ms[0]);
  }

  /** A run is extended by a move at its end. */
  lemma {:induction false} RunSnoc(s: Sched, clock: nat, ms: seq<Move>, m: Move)
    requires Inv(s, clock) && LegalRun(s, clock, ms)
    requires Shape(Run(s, clock, ms).0) && Legal(Run(s, clock, ms).0, Run(s, clock, ms).1, m)
    ensures LegalRun(s, clock, ms + [m])
    ensures Run(s, clock, ms + [m]) == (Apply(Run(s, clock, ms).0, m), ClockAfter(Run(s, clock, ms).1, m))
    decreases |ms|
  {
    assert Shape(s);
    hide MidInv, Apply, Legal;
    if ms == [] {
      assert ms + [m] == [m] && [m][1..] == [];
      assert Run(s, clock, ms) == (s, clock);
      RunBack(s, clock, [m]);
    } else {
      assert (ms + [m])[1..] == ms[1..] + [m] && (ms + [m])[0] == ms[0];
      RunBack(s, clock, ms);
      RunBack(s, clock, ms + [m]);
      RunSnoc(Apply(s, ms[0]), ClockAfter(clock, ms[0]), ms[1..], m);
    }
  }

  // ---------- conservation ----------

  ghost predicate IsQueued(s: Sched, n: Name) { n in WorkSteal.Content(s.ready) }

  /** Suspended under the key that its state names. */
  ghost predicate IsAsleep(s: Sched, n: Name) {
    n in s.cells && s.cells[n].Suspended? && s.cells[n].timestamp in s.suspend
    && n in s.suspend[s.cells[n].timestamp].inner
  }

  /** In the syscall map under its own name. */
  ghost predicate IsInCall(s: Sched, n: Name) {
    n in s.syscall && s.syscall[n] == n && n in s.cells && s.cells[n].SystemCall?
  }

  ghost predicate IsFinished(s: Sched, n: Name) { FinishedIn(s.log)[n] == 1 }

  ghost predicate IsDropped(s: Sched, n: Name) { n in s.lost }

  function Count(b: bool): nat { if b then 1 else 0 }

  /**
   * Conservation: a submitted coroutine is in exactly one of the ready queues, the suspend list under
   * its own key, the syscall map under its own name, the finished ones (reported exactly once), or
   * the ones dropped by a failed resume; one that was not submitted is nowhere.
   */
  lemma ExactlyOnePlace(s: Sched, clock: nat, n: Name)
    requires Inv(s, clock)
    ensures Count(IsQueued(s, n)) + Count(IsAsleep(s, n)) + Count(IsInCall(s, n)) + Count(IsFinished(s, n))
            + Count(IsDropped(s, n)) == CreatedIn(s.log)[n] == Count(n in s.cells)
  {
    assert OnePlace(s, multiset{}, n);
    Timer.InHeld(s.suspend, n);
    assert IsAsleep(s, n) <==> n in Timer.Held(s.suspend);
    hide WorkSteal.Content, Timer.Held, CreatedIn, FinishedIn;
  }

  /** `size()`: the own worker, the suspend list and the syscall map; the shared queue is not counted. */
  function Size(s: Sched): nat
    requires s.me < |s.ready.locals|
  {
    |s.ready.locals[s.me]| + |Timer.Drained(s.suspend)| + |s.syscall|
  }

  ghost predicate NotSpilled(s: Sched)
    requires s.me < |s.ready.locals|
  {
    s.ready.shared == [] && forall i | 0 <= i < |s.ready.locals| && i != s.me :: s.ready.locals[i] == []
  }

  lemma {:induction false} DrainedSize<T>(m: Timer.Entries<T>)
    ensures |Timer.Drained(m)| == |Timer.Held(m)|
    decreases |m|
  {
    if m != map[] {
      var k := Timer.MinKey(m.Keys);
      Timer.RemoveShrinks(m, k);
      DrainedSize(m - {k});
    }
  }

  lemma {:induction false} BagSize<T>(ls: seq<seq<T>>, i: nat)
    requires i < |ls|
    ensures |WorkSteal.Bag(ls)| >= |ls[i]|
    ensures |WorkSteal.Bag(ls)| == |ls[i]| <==> forall j | 0 <= j < |ls| && j != i :: ls[j] == []
  {
    WorkSteal.BagUpdate(ls, i, []);
    var rest := ls[i := []];
    assert |WorkSteal.Bag(rest) + multiset(ls[i])| == |WorkSteal.Bag(ls) + multiset([])|;
    if forall j | 0 <= j < |ls| && j != i :: ls[j] == [] {
      WorkSteal.BagEmpty(rest);
    } else {
      var j :| 0 <= j < |ls| && j != i && ls[j] != [];
      WorkSteal.BagMember(rest, j);
      assert ls[j][0] in multiset(rest[j]);
      assert ls[j][0] in WorkSteal.Bag(rest);
    }
  }

  /** The five places together, as one bag. */
  ghost function Everywhere(s: Sched): multiset<Name> {
    WorkSteal.Content(s.ready) + Timer.Held(s.suspend) + multiset(s.syscall.Keys)
    + FinishedIn(s.log) + multiset(s.lost)
  }

  lemma EverywhereIsCreated(s: Sched, clock: nat)
    requires Inv(s, clock)
    ensures CreatedIn(s.log) == Everywhere(s)
  {
    hide WorkSteal.Content, Timer.Held, CreatedIn, FinishedIn;
    forall n ensures CreatedIn(s.log)[n] == Everywhere(s)[n] {
      assert OnePlace(s, multiset{}, n);
    }
  }

  lemma EverywhereSize(s: Sched)
    requires s.me < |s.ready.locals|
    ensures |Everywhere(s)| == |s.ready.shared| + |WorkSteal.Bag(s.ready.locals)| + |Timer.Drained(s.suspend)|
                               + |s.syscall| + |FinishedIn(s.log)| + |s.lost|
  {
    DrainedSize(s.suspend);
    hide WorkSteal.Bag, Timer.Held, Timer.Drained, CreatedIn, FinishedIn;
    assert |multiset(s.syscall.Keys)| == |s.syscall.Keys| == |s.syscall|;
  }

  /**
   * `size()` counts the submitted coroutines that are neither finished nor dropped, exactly when
   * nothing has spilled out of the own worker queue; otherwise it falls short.
   */
  lemma SizeIsExactUnlessSpilled(s: Sched, clock: nat)
    requires Inv(s, clock)
    ensures |CreatedIn(s.log)| >= |FinishedIn(s.log)| + |s.lost| + Size(s)
    ensures |CreatedIn(s.log)| == |FinishedIn(s.log)| + |s.lost| + Size(s) <==> NotSpilled(s)
  {
    EverywhereIsCreated(s, clock);
    hide MidInv;
    EverywhereSize(s);
    BagSize(s.ready.locals, s.me);
    hide WorkSteal.Content, WorkSteal.Bag, Timer.Held, Timer.Drained, CreatedIn, FinishedIn, Everywhere;
  }

  // ---------- syscall deadlines ----------

  lemma {:induction false} ExpireTakes(s: Sched, clock: nat, ns: seq<Name>, n: Name)
    requires MidInv(s, clock, multiset{}, ns) && n in s.syscall && n in ns
    ensures n in s.cells
    ensures var s' := Expire(s, ns);
            && n !in s'.syscall && n in WorkSteal.Content(s'.ready)
            && n in s'.cells && s'.cells[n] == ExpiredCell(s.cells[n])
    decreases |ns|
  {
    assert Shape(s);
    hide MidInv;
    var s1 := ExpireOne(s, ns[0]);
    ExpireOneKeeps(s, clock, ns, ns[0]);
    OwedStep(s1, clock, ns);
    if ns[0] == n {
      ExpireLeaves(s1, clock, ns[1..], n);
    } else {
      ExpireOther(s, clock, ns, ns[0], n);
      ExpireTakes(s1, clock, ns[1..], n);
    }
  }

  lemma ExpireOther(s: Sched, clock: nat, owed: seq<Name>, m: Name, n: Name)
    requires MidInv(s, clock, multiset{}, owed) && m != n
    ensures var s' := ExpireOne(s, m);
            && (n in s'.syscall <==> n in s.syscall)
            && (n in s.cells ==> n in s'.cells && s'.cells[n] == s.cells[n])
            && (n in WorkSteal.Content(s.ready) ==> n in WorkSteal.Content(s'.ready))
  {
    if m in s.syscall {
      WorkSteal.PushConserves(s.ready, s.me, m);
    }
  }

  /** A coroutine that is not in the syscall map is untouched by deadline entries. */
  lemma {:induction false} ExpireLeaves(s: Sched, clock: nat, ns: seq<Name>, n: Name)
    requires MidInv(s, clock, multiset{}, ns) && (n !in s.syscall || n !in ns)
    ensures var s' := Expire(s, ns);
            && (n in s'.syscall <==> n in s.syscall)
            && (n in s.cells ==> n in s'.cells && s'.cells[n] == s.cells[n])
            && (n in WorkSteal.Content(s.ready) ==> n in WorkSteal.Content(s'.ready))
    decreases |ns|
  {
    assert Shape(s);
    hide MidInv;
    if ns != [] {
      ExpireOneKeeps(s, clock, ns, ns[0]);
      OwedStep(ExpireOne(s, ns[0]), clock, ns);
      if ns[0] != n {
        ExpireOther(s, clock, ns, ns[0], n);
      }
      ExpireLeaves(ExpireOne(s, ns[0]), clock, ns[1..], n);
    }
  }

  lemma {:induction false} WakeDueLeaves(s: Sched, ns: seq<Name>, n: Name)
    requires s.me < |s.ready.locals| && n !in ns
    ensures n in WakeDue(s, ns).cells <==> n in s.cells
    ensures n in s.cells ==> WakeDue(s, ns).cells[n] == s.cells[n]
    decreases |ns|
  {
    if ns != [] {
      WakeDueLeaves(Push(SetCell(s, ns[0], Ready), ns[0]), ns[1..], n);
    }
  }

  /** A deadline entry for `n` lies at or before `cut`. */
  ghost predicate HasDue(s: Sched, n: Name, cut: nat) {
    exists k: nat :: k <= cut && Filed(s.deadlines, k, n)
  }

  /** The first half of `check_ready` does not touch a coroutine inside a system call. */
  lemma FirstHalfLeaves(s: Sched, clock: nat, cut1: nat, n: Name)
    requires Inv(s, clock) && cut1 <= clock && n in s.syscall
    ensures n in s.cells
    ensures var s1 := WakeDue(s.(suspend := Timer.Later(s.suspend, cut1)), Timer.Due(s.suspend, cut1));
            && Inv(s1, clock) && s1.deadlines == s.deadlines && s1.syscall == s.syscall
            && n in s1.cells && s1.cells[n] == s.cells[n]
  {
    var due := Timer.Due(s.suspend, cut1);
    var s0 := s.(suspend := Timer.Later(s.suspend, cut1));
    DueStep(s, clock, cut1);
    assert s.cells[n].SystemCall?;
    assert n !in due;
    hide MidInv;
    WakeDueKeeps(s0, clock, due);
    WakeDueShape(s0, due);
    WakeDueLeaves(s0, due, n);
  }

  /**
   * `check_ready` wakes a coroutine waiting in a system call if and only if some deadline entry
   * naming it is due; the woken one is queued, in `Timeout` if it was suspended.
   */
  lemma WokenIffDue(s: Sched, clock: nat, cut1: nat, cut2: nat, n: Name)
    requires Inv(s, clock) && cut1 <= clock && n in s.syscall
    ensures n in s.cells
    ensures var s' := CheckReady(s, cut1, cut2);
            && (n !in s'.syscall <==> HasDue(s, n, cut2))
            && n in s'.cells
            && (HasDue(s, n, cut2) ==> IsQueued(s', n) && s'.cells[n] == ExpiredCell(s.cells[n]))
            && (!HasDue(s, n, cut2) ==> s'.cells[n] == s.cells[n])
  {
    FirstHalfLeaves(s, clock, cut1, n);
    var s1 := WakeDue(s.(suspend := Timer.Later(s.suspend, cut1)), Timer.Due(s.suspend, cut1));
    DeadlineStep(s1, clock, cut2);
    var s2 := s1.(deadlines := Timer.Later(s1.deadlines, cut2));
    var names := Timer.Due(s1.deadlines, cut2);
    Timer.InDue(s1.deadlines, cut2, n);
    if n in names {
      var k :| k in s.deadlines && k <= cut2 && n in s.deadlines[k].inner;
      assert Filed(s.deadlines, k, n);
    }
    assert n in names <==> HasDue(s, n, cut2);
    hide MidInv, Expire, WakeDue, Timer.Due;
    if n in names {
      ExpireTakes(s2, clock, names, n);
    } else {
      ExpireLeaves(s2, clock, names, n);
    }
  }

  /**
   * No lost wake-up: a coroutine suspended in a system call until `t` has its name filed under `t`,
   * so a `check_ready` acting on a clock of `t` or later moves it to the ready queue in `Timeout`,
   * whatever stale entries are around.
   */
  lemma NoLostWakeUp(s: Sched, clock: nat, cut1: nat, cut2: nat, n: Name)
    requires Inv(s, clock) && cut1 <= clock && n in s.syscall
    requires n in s.cells && s.cells[n].SystemCall? && s.cells[n].sub.Suspend? && s.cells[n].sub.until <= cut2
    ensures var s' := CheckReady(s, cut1, cut2);
            && Filed(s.deadlines, s.cells[n].sub.until, n)
            && IsQueued(s', n) && n !in s'.syscall
            && n in s'.cells && s'.cells[n] == SystemCall(s.cells[n].call, Timeout)
  {
    assert Filed(s.deadlines, s.cells[n].sub.until, n);
    WokenIffDue(s, clock, cut1, cut2, n);
  }

  /** A `Timeout` is delivered only at or after a deadline that this coroutine itself registered. */
  lemma TimeoutWasRegistered(s: Sched, clock: nat, cut1: nat, cut2: nat, n: Name) returns (k: nat)
    requires Inv(s, clock) && cut1 <= clock && n in s.syscall
    requires n in s.cells && s.cells[n].SystemCall? && s.cells[n].sub.Suspend?
    requires n in CheckReady(s, cut1, cut2).cells
    requires CheckReady(s, cut1, cut2).cells[n] == SystemCall(s.cells[n].call, Timeout)
    ensures k <= cut2 && Registered(s.log, n, k)
  {
    WokenIffDue(s, clock, cut1, cut2, n);
    assert DeadlinesOk(s);
    k :| k <= cut2 && Filed(s.deadlines, k, n);
  }

  /** An entry for `n` under a time before its current deadline: left over from an earlier wait. */
  ghost predicate StaleEntry(s: Sched, n: Name, k: nat) {
    n in s.cells && s.cells[n].SystemCall? && s.cells[n].sub.Suspend? && k < s.cells[n].sub.until
    && Filed(s.deadlines, k, n)
  }

  /** The wake-up comes before the current deadline exactly when a stale entry is due. */
  lemma EarlyIffStale(s: Sched, clock: nat, cut1: nat, cut2: nat, n: Name)
    requires Inv(s, clock) && cut1 <= clock && n in s.syscall
    requires n in s.cells && s.cells[n].SystemCall? && s.cells[n].sub.Suspend? && cut2 < s.cells[n].sub.until
    ensures n !in CheckReady(s, cut1, cut2).syscall <==> exists k: nat :: k <= cut2 && StaleEntry(s, n, k)
  {
    WokenIffDue(s, clock, cut1, cut2, n);
    if HasDue(s, n, cut2) {
      var k: nat :| k <= cut2 && Filed(s.deadlines, k, n);
      assert StaleEntry(s, n, k);
    }
  }

  // ---------- without `try_resume` there are no stale entries ----------

  /** Every deadline entry naming `n` is the one its present wait registered. */
  ghost predicate Pristine(s: Sched, n: Name) {
    forall k: nat | Filed(s.deadlines, k, n) ::
      n in s.syscall && n in s.cells && s.cells[n].SystemCall? && s.cells[n].sub == Suspend(k)
  }

  lemma PristineNeverEarly(s: Sched, clock: nat, cut1: nat, cut2: nat, n: Name)
    requires Inv(s, clock) && cut1 <= clock && n in s.syscall && Pristine(s, n)
    requires n in s.cells && s.cells[n].SystemCall? && s.cells[n].sub.Suspend?
    ensures n !in CheckReady(s, cut1, cut2).syscall <==> s.cells[n].sub.until <= cut2
  {
    if s.cells[n].sub.until <= cut2 {
      NoLostWakeUp(s, clock, cut1, cut2, n);
    } else {
      EarlyIffStale(s, clock, cut1, cut2, n);
    }
  }

  /** A step that leaves the deadline list, the cell of `n` and its presence in the map alone. */
  ghost predicate SameFor(s: Sched, s': Sched, n: Name) {
    && s'.deadlines == s.deadlines
    && (n in s'.syscall <==> n in s.syscall)
    && (n in s.syscall && n in s.cells ==> n in s'.cells && s'.cells[n] == s.cells[n])
  }

  lemma EffectSame(s: Sched, clock: nat, held: multiset<Name>, e: Effect, n: Name)
    requires MidInv(s, clock, held, []) && FreshEffect(s, e) && e != Wake(n)
    ensures SameFor(s, DoEffect(s, e), n)
  {
  }

  lemma {:induction false} EffectsSame(s: Sched, clock: nat, held: multiset<Name>, es: seq<Effect>, n: Name)
    requires MidInv(s, clock, held, []) && FreshEffects(s, es) && Wake(n) !in es
    ensures SameFor(s, DoEffects(s, es), n)
    decreases |es|
  {
    assert Shape(s);
    assert n in s.syscall ==> n in s.cells;
    if es != [] {
      EffectKeeps(s, clock, held, es[0]);
      EffectSame(s, clock, held, es[0], n);
      hide MidInv;
      EffectsSame(DoEffect(s, es[0]), clock, held, es[1..], n);
    }
  }

  lemma {:induction false} ActsSame(s: Sched, clock: nat, m: Name, acts: seq<Act>, n: Name)
    requires MidInv(s, clock, multiset{m}, []) && m in s.cells && FreshActs(s, m, acts) && Do(Wake(n)) !in acts
    ensures SameFor(s, DoActs(s, m, acts), n)
    decreases |acts|
  {
    assert Shape(s);
    assert n in s.syscall ==> n in s.cells;
    HeldIsApart(s, clock, multiset{m}, [], m);
    if acts != [] {
      var s' := ActStep(s, m, acts[0]);
      match acts[0] {
        case Hook(h) =>
          CellStep(s, clock, multiset{m}, [], m, HookStep(s.cells[m], h));
        case Do(e) =>
          EffectKeeps(s, clock, multiset{m}, e);
          EffectSame(s, clock, multiset{m}, e, n);
      }
      hide MidInv;
      assert SameFor(s, s', n);
      ActsSame(s', clock, m, acts[1..], n);
    }
  }

  lemma SamePristine(s: Sched, s': Sched, n: Name)
    requires Pristine(s, n) && SameFor(s, s', n)
    ensures Pristine(s', n)
  {
  }

  /** `check_ready` consumes the entry of `n` together with its wait, or neither. */
  lemma CheckReadyPristine(s: Sched, clock: nat, cut1: nat, cut2: nat, n: Name)
    requires Inv(s, clock) && cut1 <= clock && Pristine(s, n)
    ensures Pristine(CheckReady(s, cut1, cut2), n)
  {
    var s' := CheckReady(s, cut1, cut2);
    CheckReadyShape(s, cut1, cut2);
    forall k: nat | Filed(s'.deadlines, k, n)
      ensures n in s'.syscall && n in s'.cells && s'.cells[n].SystemCall? && s'.cells[n].sub == Suspend(k)
    {
      assert Filed(s.deadlines, k, n) && cut2 < k;
      assert s.cells[n].sub == Suspend(k);
      WokenIffDue(s, clock, cut1, cut2, n);
    }
  }

  ghost predicate NeverWakes(b: Stretch, n: Name) {
    Do(Wake(n)) !in b.acts && Wake(n) !in b.reaction
  }

  lemma ResumePristine(s: Sched, clock: nat, m: Name, now1: nat, b: Stretch, now2: nat, n: Name)
    requires MidInv(s, clock, multiset{m}, []) && m in s.cells && Runnable(s.cells[m], clock)
    requires clock <= now1 <= now2 && FreshStretch(s, m, now1, b)
    requires Pristine(s, n) && NeverWakes(b, n)
    ensures Pristine(Resume(s, m, now1, b, now2).sched, n)
  {
    assert Shape(s);
    RunBodyKeeps(s, clock, m, now1, b);
    RunBodyPristine(s, clock, m, now1, b, n);
    hide MidInv, RunBody, DoEffects, FreshActs, FreshEffects, Pristine, SameFor, Drop, Place, Conclude;
    var s2 := RunBody(s, m, now1, b);
    var st := AfterBody(s2.cells[m], b.end);
    if st.None? {
      LostSame(s2, m, n);
      SamePristine(s2, Drop(s2, m), n);
    } else {
      EndPristine(s2, clock, m, st.value, b.reaction, now2, n);
    }
  }

  lemma RunBodyPristine(s: Sched, clock: nat, m: Name, now1: nat, b: Stretch, n: Name)
    requires MidInv(s, clock, multiset{m}, []) && m in s.cells && Runnable(s.cells[m], clock) && clock <= now1
    requires FreshStretch(s, m, now1, b) && Pristine(s, n) && NeverWakes(b, n)
    ensures Pristine(RunBody(s, m, now1, b), n)
  {
    HeldIsApart(s, clock, multiset{m}, [], m);
    assert Shape(s);
    hide MidInv, DoActs, FreshActs, FreshEffects, Pristine, SameFor, SetCell, Report;
    var st0 := s.cells[m];
    var run := ToRunning(st0, now1).value;
    var s1 := Report(s, OnResume(m, st0));
    var s1' := SetCell(s1, m, run);
    ReportStep(s, clock, multiset{m}, [], OnResume(m, st0));
    CellStep(s1, clock, multiset{m}, [], m, run);
    CellSame(s, s1', m, n);
    ActsSame(s1', clock, m, b.acts, n);
    SamePristine(s, s1', n);
    SamePristine(s1', DoActs(s1', m, b.acts), n);
  }

  lemma CellSame(s: Sched, s': Sched, m: Name, n: Name)
    requires m in s.cells && m !in s.syscall && s'.syscall == s.syscall && s'.deadlines == s.deadlines
    requires forall x | x in s.cells && x != m :: x in s'.cells && s'.cells[x] == s.cells[x]
    ensures SameFor(s, s', n)
  {
  }

  lemma LostSame(s: Sched, m: Name, n: Name)
    ensures SameFor(s, Drop(s, m), n)
  {
  }

  lemma EndPristine(s: Sched, clock: nat, m: Name, st: CoroutineState, reaction: seq<Effect>, now: nat, n: Name)
    requires MidInv(s, clock, multiset{m}, []) && Pristine(s, n) && Wake(n) !in reaction
    requires HasEnded(st)
    requires FreshEffects(Conclude(s, m, st), reaction)
    ensures var s3 := Conclude(s, m, st);
            Pristine(Place(DoEffects(s3, reaction), m, st, now), n)
  {
    HeldIsApart(s, clock, multiset{m}, [], m);
    var s2 := SetCell(s, m, st);
    CellStep(s, clock, multiset{m}, [], m, st);
    var e := EndEvent(m, st);
    var s3 := Report(s2, e);
    CellSame(s, s3, m, n);
    var held := if st.Complete? || st.Error? then multiset{} else multiset{m};
    assert multiset{} + multiset{m} == multiset{m};
    if st.Complete? || st.Error? {
      FinishStep(s2, clock, multiset{}, [], e);
    } else {
      ReportStep(s2, clock, multiset{m}, [], e);
    }
    EffectsKeep(s3, clock, held, reaction);
    EffectsSame(s3, clock, held, reaction, n);
    SamePristine(s, s3, n);
    var s4 := DoEffects(s3, reaction);
    SamePristine(s3, s4, n);
    if st.SystemCall? || st.Suspended? {
      HeldIsApart(s4, clock, held, [], m);
      hide MidInv, DoEffects, FreshEffects;
      PlacePristine(s4, m, st, now, n);
    }
  }

  lemma PlacePristine(s: Sched, m: Name, st: CoroutineState, now: nat, n: Name)
    requires s.me < |s.ready.locals| && m in s.cells && s.cells[m] == st && m !in s.syscall
    requires Pristine(s, n)
    ensures Pristine(Place(s, m, st, now), n)
  {
    var s' := Place(s, m, st, now);
    forall k: nat | Filed(s'.deadlines, k, n)
      ensures n in s'.syscall && n in s'.cells && s'.cells[n].SystemCall? && s'.cells[n].sub == Suspend(k)
    {
      if !(m == n && st.SystemCall? && st.sub == Suspend(k)) {
        assert Filed(s.deadlines, k, n);
      }
    }
  }

  ghost predicate MoveNeverWakes(m: Move, n: Name) {
    match m
    case MSubmit(_) => true
    case MWake(x) => x != n
    case MTurn(_, b) => NeverWakes(b, n)
  }

  lemma TurnPristine(s: Sched, clock: nat, r: Readings, b: Stretch, n: Name)
    requires Inv(s, clock) && Timely(s, clock, r) && FreshTurn(s, r, b) && Pristine(s, n) && NeverWakes(b, n)
    ensures Pristine(Turn(s, r, b).sched, n)
  {
    ClockStep(s, clock, r.cut2, multiset{}, []);
    assert Shape(s);
    ResumePoint(s, clock, r);
    CheckReadyShape(s, r.cut1, r.cut2);
    hide MidInv, CheckReady, WorkSteal.PopFront, Pristine, Resume, FreshStretch;
    CheckReadyPristine(s, r.cut2, r.cut1, r.cut2, n);
    var s2 := AtResume(s, r);
    SamePristine(CheckReady(s, r.cut1, r.cut2), s2, n);
    if Chosen(s, r).Some? {
      ResumePristine(s2, r.cut2, Chosen(s, r).value, r.now1, b, r.now2, n);
    }
  }

  lemma MovePristine(s: Sched, clock: nat, m: Move, n: Name)
    requires Inv(s, clock) && Legal(s, clock, m) && Pristine(s, n) && MoveNeverWakes(m, n)
    ensures Pristine(Apply(s, m), n)
  {
    match m
    case MSubmit(x) =>
      EffectSame(s, clock, multiset{}, Spawn(x), n);
      SamePristine(s, Apply(s, m), n);
    case MWake(x) =>
      EffectSame(s, clock, multiset{}, Wake(x), n);
      SamePristine(s, Apply(s, m), n);
    case MTurn(r, b) =>
      TurnPristine(s, clock, r, b, n);
  }

  /**
   * In every run in which nobody calls `try_resume` for `n`, its entries never go stale; so by
   * `PristineNeverEarly` it is woken exactly when its current deadline has come.
   */
  lemma {:induction false} RunPristine(s: Sched, clock: nat, ms: seq<Move>, n: Name)
    requires Inv(s, clock) && LegalRun(s, clock, ms) && Pristine(s, n)
    requires forall m | m in ms :: MoveNeverWakes(m, n)
    ensures Pristine(Run(s, clock, ms).0, n)
    decreases |ms|
  {
    assert Shape(s);
    hide MidInv;
    if ms != [] {
      MoveKeeps(s, clock, ms[0]);
      MovePristine(s, clock, ms[0], n);
      RunPristine(Apply(s, ms[0]), ClockAfter(clock, ms[0]), ms[1..], n);
    }
  }
}
