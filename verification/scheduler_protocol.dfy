// The state protocol of hooked system calls inside runs of the scheduler: a coroutine whose bodies
// follow the hook program is, in every legal run, where the protocol machine says.
module SchedulerProtocol {
  import opened Constants
  import opened StateMachine
  import opened SchedulerModel
  import opened SchedulerInvariant
  import opened SchedulerRuns
  import opened SchedulerTheorems
  import P = SyscallProtocol
  import Timer
  import WorkSteal

  // ---------- the hook program of one body ----------

  /** The hook transitions behind a choice of the program. */
  function HooksOf(m: P.Machine, c: P.Choice): seq<HookAct> {
    match c
    case Begin(call) => [Enter(call, Computing)]
    case Wait(t) => if m.cell.SystemCall? then [Enter(m.cell.call, Suspend(t))] else []
    case GoSelect => if m.cell.SystemCall? then [Enter(m.cell.call, Calling(EpollWait))] else []
    case Selected => if m.cell.SystemCall? then [Enter(m.cell.call, Computing)] else []
    case End => if m.calls != [] then [Enter(m.calls[0], Finished), Leave] else []
    case _ => []
  }

  /** What the program may do next in its own body. */
  predicate Enabled(m: P.Machine, c: P.Choice) {
    && m.place == P.InBody
    && match c
       case Begin(_) => m.pc == P.Outside
       case Wait(_) => m.pc == P.Inner
       case GoSelect => m.pc == P.Back
       case Selected => m.pc == P.Selecting
       case End => m.pc == P.Inner
       case _ => false
  }

  predicate Program(m: P.Machine, cs: seq<P.Choice>)
    decreases cs
  {
    cs == [] || (Enabled(m, cs[0]) && Program(P.Step(m, cs[0]), cs[1..]))
  }

  function HooksAlong(m: P.Machine, cs: seq<P.Choice>): seq<HookAct>
    decreases cs
  {
    if cs == [] then [] else HooksOf(m, cs[0]) + HooksAlong(P.Step(m, cs[0]), cs[1..])
  }

  lemma {:induction false} HookRunConcat(st: CoroutineState, a: seq<HookAct>, b: seq<HookAct>)
    ensures HookRun(st, a + b) == HookRun(HookRun(st, a), b)
    decreases a
  {
    if a == [] {
      assert a + b == b;
    } else {
      assert (a + b)[1..] == a[1..] + b;
      HookRunConcat(HookStep(st, a[0]), a[1..], b);
    }
  }

  lemma EnabledHooks(m: P.Machine, c: P.Choice)
    requires P.Agrees(m) && Enabled(m, c)
    ensures HookRun(m.cell, HooksOf(m, c)) == P.Step(m, c).cell
    ensures P.Hooked(m, c) && (P.Step(m, c).place == P.InBody || P.Step(m, c).place == P.InMap)
  {
    hide P.ReadAll;
    if c.End? {
      var finish := Enter(m.calls[0], Finished);
      assert [finish, Leave][1..] == [Leave] && [Leave][1..] == [];
      assert HookRun(m.cell, [finish, Leave]) == HookRun(HookStep(m.cell, finish), [Leave]);
      assert HookRun(HookStep(m.cell, finish), [Leave]) == HookStep(HookStep(m.cell, finish), Leave);
    } else {
      var h := HooksOf(m, c)[0];
      assert [h][1..] == [];
      assert HookRun(m.cell, [h]) == HookStep(m.cell, h);
    }
  }

  /** The hooks of a body that follows the program leave its cell as the machine says. */
  lemma {:induction false} ProgramHooks(m: P.Machine, cs: seq<P.Choice>)
    requires P.Agrees(m) && Program(m, cs) && m.place == P.InBody
    ensures P.Agrees(P.Run(m, cs)) && P.HookedRun(m, cs)
    ensures HookRun(m.cell, HooksAlong(m, cs)) == P.Run(m, cs).cell
    ensures P.Run(m, cs).place == P.InBody || P.Run(m, cs).place == P.InMap
    decreases cs
  {
    if cs != [] {
      var m1 := P.Step(m, cs[0]);
      EnabledHooks(m, cs[0]);
      P.StepAgrees(m, cs[0]);
      HookRunConcat(m.cell, HooksOf(m, cs[0]), HooksAlong(m1, cs[1..]));
      hide P.Step, P.Agrees, HooksOf;
      if m1.place == P.InBody {
        ProgramHooks(m1, cs[1..]);
      } else {
        assert cs[1..] == [] by {
          hide *;
          NothingAfter(m1, cs[1..]);
        }
      }
    }
  }

  lemma NothingAfter(m: P.Machine, cs: seq<P.Choice>)
    requires Program(m, cs) && m.place != P.InBody
    ensures cs == []
  {
  }

  // ---------- where a coroutine is ----------

  ghost predicate At(s: Sched, n: Name, cell: CoroutineState, mapped: bool) {
    n in s.cells && s.cells[n] == cell && (n in s.syscall <==> mapped)
  }

  /** The scheduler has coroutine `n` where the machine says. */
  ghost predicate Tracks(s: Sched, n: Name, m: P.Machine) {
    match m.place
    case Resting => n in s.cells && (s.cells[n] == Ready || s.cells[n].Suspended?) && n !in s.syscall
    case InMap => At(s, n, m.cell, true)
    case InQueue => At(s, n, m.cell, false)
    case Gone => HasFinished(s, n)
    case InBody => false
  }

  /** Coroutine `n` has completed or failed; it is in no container and was not dropped. */
  ghost predicate HasFinished(s: Sched, n: Name) {
    n in s.cells && (s.cells[n].Complete? || s.cells[n].Error?) && n !in s.syscall && n !in s.lost
  }

  /** It was reported so. */
  lemma FinishedIsReported(s: Sched, clock: nat, n: Name)
    requires Inv(s, clock) && HasFinished(s, n)
    ensures IsFinished(s, n)
  {
    ExactlyOnePlace(s, clock, n);
    assert !IsQueued(s, n) by {
      assert ReadyOk(s, clock);
    }
  }

  lemma EffectAt(s: Sched, clock: nat, held: multiset<Name>, e: Effect, n: Name, cell: CoroutineState, mapped: bool)
    requires MidInv(s, clock, held, []) && FreshEffect(s, e) && At(s, n, cell, mapped)
    ensures At(DoEffect(s, e), n, if mapped && e == Wake(n) then WokenCell(cell) else cell, mapped && e != Wake(n))
  {
  }

  lemma {:induction false} EffectsAt(s: Sched, clock: nat, held: multiset<Name>, es: seq<Effect>, n: Name,
                                     cell: CoroutineState, mapped: bool)
    requires MidInv(s, clock, held, []) && FreshEffects(s, es) && At(s, n, cell, mapped)
    ensures var woken := mapped && Wake(n) in es;
            At(DoEffects(s, es), n, if woken then WokenCell(cell) else cell, mapped && !woken)
    decreases |es|
  {
    assert Shape(s);
    if es != [] {
      EffectKeeps(s, clock, held, es[0]);
      EffectAt(s, clock, held, es[0], n, cell, mapped);
      hide MidInv, DoEffect, At;
      var now := mapped && es[0] == Wake(n);
      EffectsAt(DoEffect(s, es[0]), clock, held, es[1..], n, if now then WokenCell(cell) else cell, mapped && !now);
    }
  }

  /** The acts of another coroutine `x`. */
  lemma {:induction false} ActsAt(s: Sched, clock: nat, x: Name, acts: seq<Act>, n: Name,
                                  cell: CoroutineState, mapped: bool)
    requires MidInv(s, clock, multiset{x}, []) && x in s.cells && FreshActs(s, x, acts) && x != n && At(s, n, cell, mapped)
    ensures var woken := mapped && Do(Wake(n)) in acts;
            At(DoActs(s, x, acts), n, if woken then WokenCell(cell) else cell, mapped && !woken)
    decreases |acts|
  {
    assert Shape(s);
    if acts != [] {
      var s' := ActStep(s, x, acts[0]);
      var now := mapped && acts[0] == Do(Wake(n));
      match acts[0] {
        case Hook(h) =>
          CellStep(s, clock, multiset{x}, [], x, HookStep(s.cells[x], h));
        case Do(e) =>
          EffectKeeps(s, clock, multiset{x}, e);
          EffectAt(s, clock, multiset{x}, e, n, cell, mapped);
      }
      hide MidInv, DoEffect, HookStep;
      assert At(s', n, if now then WokenCell(cell) else cell, mapped && !now);
      hide At;
      ActsAt(s', clock, x, acts[1..], n, if now then WokenCell(cell) else cell, mapped && !now);
    }
  }

  // ---------- a turn ----------

  /** The first half of `check_ready` and a coroutine that does not wait in a system call. */
  lemma {:induction false} WakeDueCell(s: Sched, ns: seq<Name>, n: Name)
    requires s.me < |s.ready.locals| && n in s.cells
    ensures n in WakeDue(s, ns).cells
    ensures WakeDue(s, ns).cells[n] == s.cells[n] || WakeDue(s, ns).cells[n] == Ready
    ensures n !in ns ==> WakeDue(s, ns).cells[n] == s.cells[n]
    decreases |ns|
  {
    if ns != [] {
      WakeDueCell(Push(SetCell(s, ns[0], Ready), ns[0]), ns[1..], n);
    }
  }

  lemma FirstHalfCell(s: Sched, clock: nat, cut1: nat, n: Name)
    requires Inv(s, clock) && cut1 <= clock && n in s.cells
    ensures var s1 := WakeDue(s.(suspend := Timer.Later(s.suspend, cut1)), Timer.Due(s.suspend, cut1));
            && Inv(s1, clock) && s1.deadlines == s.deadlines && s1.syscall == s.syscall && n in s1.cells
            && (s1.cells[n] == s.cells[n] || s1.cells[n] == Ready)
            && (!s.cells[n].Suspended? ==> s1.cells[n] == s.cells[n])
  {
    var due := Timer.Due(s.suspend, cut1);
    var s0 := s.(suspend := Timer.Later(s.suspend, cut1));
    DueStep(s, clock, cut1);
    hide MidInv;
    WakeDueKeeps(s0, clock, due);
    WakeDueShape(s0, due);
    WakeDueCell(s0, due, n);
  }

  /** `check_ready` and a coroutine that is not in the syscall map. */
  lemma CheckReadyCell(s: Sched, clock: nat, cut1: nat, cut2: nat, n: Name)
    requires Inv(s, clock) && cut1 <= clock && n in s.cells && n !in s.syscall
    ensures var s' := CheckReady(s, cut1, cut2);
            && n in s'.cells && n !in s'.syscall
            && (s'.cells[n] == s.cells[n] || s'.cells[n] == Ready)
            && (!s.cells[n].Suspended? ==> s'.cells[n] == s.cells[n])
  {
    FirstHalfCell(s, clock, cut1, n);
    var s1 := WakeDue(s.(suspend := Timer.Later(s.suspend, cut1)), Timer.Due(s.suspend, cut1));
    DeadlineStep(s1, clock, cut2);
    hide MidInv, Expire, WakeDue, Timer.Due;
    ExpireLeaves(s1.(deadlines := Timer.Later(s1.deadlines, cut2)), clock, Timer.Due(s1.deadlines, cut2), n);
  }

  /** What the machine hears of `check_ready`. */
  ghost function HeardOfClock(s: Sched, n: Name, cut2: nat): seq<P.Choice> {
    if n in s.syscall && HasDue(s, n, cut2) then [P.Expire] else []
  }

  lemma CheckReadyTracks(s: Sched, clock: nat, cut1: nat, cut2: nat, n: Name, m: P.Machine)
    requires Inv(s, clock) && cut1 <= clock && P.Agrees(m) && Tracks(s, n, m)
    ensures var m' := P.Run(m, HeardOfClock(s, n, cut2));
            Tracks(CheckReady(s, cut1, cut2), n, m') && P.Agrees(m') && P.HookedRun(m, HeardOfClock(s, n, cut2))
            && (m'.place == m.place || m'.place == P.InQueue) && (m.place == P.Gone <==> m'.place == P.Gone)
  {
    P.StepAgrees(m, P.Expire);
    assert [P.Expire][1..] == [];
    assert P.Run(m, [P.Expire]) == P.Step(m, P.Expire) && P.Run(m, []) == m;
    CellOfMachine(m);
    hide P.Agrees, P.Run;
    if m.place == P.InMap {
      WokenIffDue(s, clock, cut1, cut2, n);
      hide MidInv, CheckReady, HasDue;
    } else {
      CheckReadyCell(s, clock, cut1, cut2, n);
      CheckReadyShape(s, cut1, cut2);
      hide MidInv, CheckReady, HasDue;
    }
  }

  lemma CellOfMachine(m: P.Machine)
    requires P.Agrees(m)
    ensures m.place == P.InMap ==> m.cell.SystemCall? && m.cell.sub.Suspend?
    ensures m.place == P.InQueue ==> m.cell.SystemCall? && !m.cell.sub.Suspend?
    ensures m.place == P.Resting || m.place == P.Gone ==> m.cell == Running && m.pc == P.Outside
  {
    hide P.ReadAll;
  }

  // ---------- another coroutine's turn ----------

  /** Whether a stretch of another coroutine wakes `n`; the reaction comes only if the turn succeeds. */
  ghost predicate Wakes(b: Stretch, n: Name, ran: bool) {
    Do(Wake(n)) in b.acts || (ran && Wake(n) in b.reaction)
  }

  lemma RunBodyAt(s: Sched, clock: nat, x: Name, now1: nat, b: Stretch, n: Name, cell: CoroutineState, mapped: bool)
    requires MidInv(s, clock, multiset{x}, []) && x in s.cells && Runnable(s.cells[x], clock) && clock <= now1
    requires FreshStretch(s, x, now1, b) && x != n && At(s, n, cell, mapped)
    ensures ToRunning(s.cells[x], now1).Some?
    ensures var woken := mapped && Do(Wake(n)) in b.acts;
            At(RunBody(s, x, now1, b), n, if woken then WokenCell(cell) else cell, mapped && !woken)
  {
    assert Shape(s);
    RunBodyKeeps(s, clock, x, now1, b);
    hide MidInv, DoActs, FreshActs, FreshEffects;
    var st0 := s.cells[x];
    var run := ToRunning(st0, now1).value;
    var s1 := Report(s, OnResume(x, st0));
    var s1' := SetCell(s1, x, run);
    ReportStep(s, clock, multiset{x}, [], OnResume(x, st0));
    CellStep(s1, clock, multiset{x}, [], x, run);
    assert At(s1', n, cell, mapped);
    hide At;
    ActsAt(s1', clock, x, b.acts, n, cell, mapped);
  }

  lemma EndAt(s: Sched, clock: nat, x: Name, st: CoroutineState, reaction: seq<Effect>, now: nat,
              n: Name, cell: CoroutineState, mapped: bool)
    requires MidInv(s, clock, multiset{x}, []) && x != n && At(s, n, cell, mapped)
    requires HasEnded(st) && FreshEffects(Conclude(s, x, st), reaction)
    ensures var woken := mapped && Wake(n) in reaction;
            At(Place(DoEffects(Conclude(s, x, st), reaction), x, st, now), n,
               if woken then WokenCell(cell) else cell, mapped && !woken)
  {
    assert Shape(s);
    var s3 := Conclude(s, x, st);
    ConcludeKeeps(s, clock, x, st);
    assert At(s3, n, cell, mapped);
    var held := if st.Complete? || st.Error? then multiset{} else multiset{x};
    hide MidInv, DoEffects, FreshEffects, Conclude, At, Place;
    EffectsAt(s3, clock, held, reaction, n, cell, mapped);
    var woken := mapped && Wake(n) in reaction;
    PlaceAt(DoEffects(s3, reaction), x, st, now, n, if woken then WokenCell(cell) else cell, mapped && !woken);
  }

  lemma PlaceAt(s: Sched, x: Name, st: CoroutineState, now: nat, n: Name, cell: CoroutineState, mapped: bool)
    requires s.me < |s.ready.locals| && At(s, n, cell, mapped)
    ensures At(Place(s, x, st, now), n, cell, mapped || (x == n && st.SystemCall?))
  {
  }

  lemma ResumeOtherAt(s: Sched, clock: nat, x: Name, now1: nat, b: Stretch, now2: nat,
                      n: Name, cell: CoroutineState, mapped: bool)
    requires MidInv(s, clock, multiset{x}, []) && x in s.cells && Runnable(s.cells[x], clock)
    requires clock <= now1 <= now2 && FreshStretch(s, x, now1, b) && x != n && At(s, n, cell, mapped)
    ensures var r := Resume(s, x, now1, b, now2);
            var woken := mapped && Wakes(b, n, r.Ran?);
            At(r.sched, n, if woken then WokenCell(cell) else cell, mapped && !woken)
  {
    assert Shape(s);
    RunBodyKeeps(s, clock, x, now1, b);
    RunBodyAt(s, clock, x, now1, b, n, cell, mapped);
    var first := mapped && Do(Wake(n)) in b.acts;
    var cell' := if first then WokenCell(cell) else cell;
    var s2 := RunBody(s, x, now1, b);
    var st := AfterBody(s2.cells[x], b.end);
    if st.None? {
      assert At(Drop(s2, x), n, cell', mapped && !first);
      hide MidInv, RunBody, At;
    } else {
      hide MidInv, RunBody, At, Place, DoEffects, Conclude, FreshEffects, FreshActs;
      EndAt(s2, clock, x, st.value, b.reaction, now2, n, cell', mapped && !first);
    }
  }

  // ---------- the coroutine's own turn ----------

  /** A body follows the program from `m`: up to a wait, or to an end outside any call. */
  ghost predicate Conducts(b: Stretch, m: P.Machine, cs: seq<P.Choice>) {
    && Program(m, cs) && Hooks(b.acts) == HooksAlong(m, cs)
    && var m2 := P.Run(m, cs);
       if m2.place == P.InMap then b.end.Yields? else m2.pc == P.Outside
  }

  /** For example, a hooked `nanosleep` that waits until `t`. */
  lemma SleepConducts(t: nat)
    ensures var b := Stretch([Hook(Enter(Nanosleep, Computing)), Hook(Enter(Nanosleep, Suspend(t)))], Yields(0), []);
            Conducts(b, P.Step(P.Newborn(), P.Resumed), [P.Begin(Nanosleep), P.Wait(t)])
  {
    var enter, suspend := Enter(Nanosleep, Computing), Enter(Nanosleep, Suspend(t));
    var acts := [Hook(enter), Hook(suspend)];
    assert acts[1..] == [Hook(suspend)] && acts[1..][1..] == [];
    assert Hooks(acts) == [enter] + Hooks(acts[1..]) && Hooks(acts[1..]) == [suspend] + Hooks([]);
    var m1 := P.Step(P.Newborn(), P.Resumed);
    var cs := [P.Begin(Nanosleep), P.Wait(t)];
    assert cs[1..] == [P.Wait(t)] && cs[1..][1..] == [];
    var m2 := P.Step(m1, cs[0]);
    assert m2.pc == P.Inner && m2.place == P.InBody && m2.cell == SystemCall(Nanosleep, Computing);
    var m3 := P.Step(m2, P.Wait(t));
    assert m3.place == P.InMap;
    hide P.Step;
    assert Program(m3, []) && Program(m2, cs[1..]) && HooksAlong(m3, []) == [];
    assert HooksAlong(m2, cs[1..]) == [suspend] + HooksAlong(m3, []);
    assert P.Run(m1, cs) == P.Run(m2, cs[1..]) == P.Run(m3, []);
  }

  ghost function Ending(m2: P.Machine, b: Stretch): seq<P.Choice> {
    if m2.place == P.InMap then [] else if b.end.Yields? then [P.Pause] else [P.Quit]
  }

  ghost function OwnChoices(m: P.Machine, b: Stretch, cs: seq<P.Choice>): seq<P.Choice> {
    [P.Resumed] + (cs + Ending(P.Run(P.Step(m, P.Resumed), cs), b))
  }

  lemma {:induction false} RunConcat(m: P.Machine, a: seq<P.Choice>, b: seq<P.Choice>)
    ensures P.Run(m, a + b) == P.Run(P.Run(m, a), b)
    ensures P.HookedRun(m, a + b) <==> P.HookedRun(m, a) && P.HookedRun(P.Run(m, a), b)
    decreases a
  {
    if a == [] {
      assert a + b == b;
    } else {
      assert (a + b)[1..] == a[1..] + b && (a + b)[0] == a[0];
      hide P.Step;
      RunConcat(P.Step(m, a[0]), a[1..], b);
    }
  }

  lemma RunSingle(m: P.Machine, c: P.Choice)
    ensures P.Run(m, [c]) == P.Step(m, c) && P.Run(m, []) == m && P.HookedRun(m, [])
    ensures P.HookedRun(m, [c]) <==> P.Hooked(m, c)
  {
    assert [c][1..] == [];
    hide P.Step;
    assert P.Run(m, [c]) == P.Run(P.Step(m, c), []);
  }

  /** What the machine does in the coroutine's own turn. */
  lemma OwnMachine(m: P.Machine, b: Stretch, cs: seq<P.Choice>)
    requires P.Agrees(m) && (m.place == P.Resting || m.place == P.InQueue)
    requires Conducts(b, P.Step(m, P.Resumed), cs)
    ensures var m1 := P.Step(m, P.Resumed);
            var m2 := P.Run(m1, cs);
            var m3 := P.Run(m, OwnChoices(m, b, cs));
            && m1.cell == m.cell && P.HookedRun(m, OwnChoices(m, b, cs)) && P.Agrees(m3)
            && HookRun(m.cell, Hooks(b.acts)) == m2.cell && m3.cell == m2.cell
            && (m2.place == P.InMap ==> m3.place == P.InMap && m2.cell.SystemCall? && b.end.Yields?)
            && (m2.place != P.InMap ==> m2.cell == Running && m3.place == if b.end.Yields? then P.Resting else P.Gone)
  {
    var m1 := P.Step(m, P.Resumed);
    P.StepAgrees(m, P.Resumed);
    ResumedMachine(m);
    ProgramHooks(m1, cs);
    var m2 := P.Run(m1, cs);
    var ending := Ending(m2, b);
    EndingMachine(m2, b);
    hide P.Agrees, P.Step, HookRun, HooksAlong, Program, Ending;
    RunSingle(m, P.Resumed);
    RunConcat(m, [P.Resumed], cs + ending);
    RunConcat(m1, cs, ending);
  }

  lemma ResumedMachine(m: P.Machine)
    requires P.Agrees(m) && (m.place == P.Resting || m.place == P.InQueue)
    ensures P.Step(m, P.Resumed).place == P.InBody && P.Step(m, P.Resumed).cell == m.cell
    ensures P.Hooked(m, P.Resumed)
  {
    hide P.ReadAll;
  }

  lemma EndingMachine(m: P.Machine, b: Stretch)
    requires P.Agrees(m) && (m.place == P.InMap || (m.place == P.InBody && m.pc == P.Outside))
    ensures var m3 := P.Run(m, Ending(m, b));
            && P.HookedRun(m, Ending(m, b)) && P.Agrees(m3) && m3.cell == m.cell
            && (m.place == P.InMap ==> m3.place == P.InMap && m.cell.SystemCall?)
            && (m.place != P.InMap ==> m.cell == Running && m3.place == if b.end.Yields? then P.Resting else P.Gone)
  {
    var c := if b.end.Yields? then P.Pause else P.Quit;
    RunSingle(m, c);
    P.StepAgrees(m, c);
    hide P.ReadAll, P.Run, P.HookedRun;
  }

  lemma OwnTurnTracks(s: Sched, clock: nat, n: Name, now1: nat, b: Stretch, now2: nat, m: P.Machine, cs: seq<P.Choice>)
    requires MidInv(s, clock, multiset{n}, []) && n in s.cells && Runnable(s.cells[n], clock)
    requires clock <= now1 <= now2 && FreshStretch(s, n, now1, b)
    requires P.Agrees(m) && Tracks(s, n, m) && (m.place == P.Resting || m.place == P.InQueue)
    requires Conducts(b, P.Step(m, P.Resumed), cs)
    ensures var m3 := P.Run(m, OwnChoices(m, b, cs));
            Tracks(Resume(s, n, now1, b, now2).sched, n, m3) && P.Agrees(m3) && P.HookedRun(m, OwnChoices(m, b, cs))
  {
    CellOfMachine(m);
    assert Shape(s);
    assert if s.cells[n].SystemCall? then m.cell == s.cells[n] else m.cell == Running by {
      hide P.Agrees, MidInv;
    }
    hide MidInv, Resume, P.Run, P.Step, P.Agrees, Conducts, OwnChoices, HookRun, Hooks, FreshStretch, Runnable, Tracks;
    OwnMachine(m, b, cs);
    OwnTurnAt(s, clock, n, now1, b, now2, m.cell);
    var m2 := P.Run(P.Step(m, P.Resumed), cs);
    OwnTurnKeeps(s, clock, n, now1, b, now2, m.cell);
    BackTracks(Resume(s, n, now1, b, now2).sched, n, m2, b.end, P.Run(m, OwnChoices(m, b, cs)));
  }

  /** A turn that ends in `Running` drops nobody. */
  lemma OwnTurnKeeps(s: Sched, clock: nat, n: Name, now1: nat, b: Stretch, now2: nat, running: CoroutineState)
    requires MidInv(s, clock, multiset{n}, []) && n in s.cells && Runnable(s.cells[n], clock)
    requires clock <= now1 <= now2 && FreshStretch(s, n, now1, b)
    requires if s.cells[n].SystemCall? then running == s.cells[n] else running == Running
    ensures HookRun(running, Hooks(b.acts)) == Running ==> n !in Resume(s, n, now1, b, now2).sched.lost
  {
    assert Shape(s);
    ResumeKeeps(s, clock, n, now1, b, now2);
    assert OnePlace(s, multiset{n}, n);
    assert ToRunning(s.cells[n], now1) == Some(running);
    hide MidInv, Resume, FreshStretch;
  }

  lemma BackTracks(s: Sched, n: Name, m2: P.Machine, end: End, m3: P.Machine)
    requires var st := AfterBody(m2.cell, end); st.Some? ==> At(s, n, st.value, st.value.SystemCall?)
    requires m3.cell == m2.cell
    requires m2.place == P.InMap ==> m3.place == P.InMap && m2.cell.SystemCall? && end.Yields?
    requires m2.place != P.InMap ==> m2.cell == Running && m3.place == if end.Yields? then P.Resting else P.Gone
    requires m2.place != P.InMap ==> n !in s.lost
    ensures Tracks(s, n, m3)
  {
  }

  lemma OwnTurnAt(s: Sched, clock: nat, n: Name, now1: nat, b: Stretch, now2: nat, running: CoroutineState)
    requires MidInv(s, clock, multiset{n}, []) && n in s.cells && Runnable(s.cells[n], clock)
    requires clock <= now1 <= now2 && FreshStretch(s, n, now1, b)
    requires if s.cells[n].SystemCall? then running == s.cells[n] else running == Running
    ensures var st := AfterBody(HookRun(running, Hooks(b.acts)), b.end);
            st.Some? ==> At(Resume(s, n, now1, b, now2).sched, n, st.value, st.value.SystemCall?)
  {
    assert Shape(s);
    RunBodyKeeps(s, clock, n, now1, b);
    assert ToRunning(s.cells[n], now1).value == running;
    var s2 := RunBody(s, n, now1, b);
    HeldIsApart(s2, clock, multiset{n}, [], n);
    var st := AfterBody(s2.cells[n], b.end);
    if st.Some? {
      assert FreshEffects(Conclude(s2, n, st.value), b.reaction);
      hide MidInv, RunBody, DoEffects, FreshEffects, Conclude, Place, At, AfterBody, HookRun;
      OwnEndTracks(s2, clock, n, st.value, b.reaction, now2);
    }
  }

  /** The coroutine itself comes back in state `st`. */
  lemma OwnEndTracks(s: Sched, clock: nat, n: Name, st: CoroutineState, reaction: seq<Effect>, now: nat)
    requires MidInv(s, clock, multiset{n}, []) && n in s.cells && n !in s.syscall
    requires HasEnded(st) && FreshEffects(Conclude(s, n, st), reaction)
    ensures At(Place(DoEffects(Conclude(s, n, st), reaction), n, st, now), n, st, st.SystemCall?)
  {
    assert Shape(s);
    var s3 := Conclude(s, n, st);
    ConcludeKeeps(s, clock, n, st);
    assert At(s3, n, st, false);
    var held := if st.Complete? || st.Error? then multiset{} else multiset{n};
    hide MidInv, DoEffects, FreshEffects, Conclude, At, Place;
    EffectsAt(s3, clock, held, reaction, n, st, false);
    PlaceAt(DoEffects(s3, reaction), n, st, now, n, st, false);
  }

  // ---------- whole runs ----------

  /** What the machine hears of a turn, given the choices `cs` of the coroutine if it is its own. */
  ghost function HeardOfTurn(s: Sched, r: Readings, b: Stretch, n: Name, m: P.Machine, cs: seq<P.Choice>): seq<P.Choice>
    requires Shape(s)
  {
    var heard := HeardOfClock(s, n, r.cut2);
    heard +
    match Chosen(s, r)
    case None => []
    case Some(x) =>
      if x == n then OwnChoices(P.Run(m, heard), b, cs)
      else if Wakes(b, n, Turn(s, r, b).Ran?) then [P.WakeUp] else []
  }

  /** The scheduler's part of another's turn, told to the machine. */
  lemma OtherTracks(s: Sched, s': Sched, n: Name, m: P.Machine, woken: bool)
    requires P.Agrees(m) && Tracks(s, n, m) && m.place != P.Gone
    requires n in s.cells ==>
               var mapped := n in s.syscall;
               At(s', n, if mapped && woken then WokenCell(s.cells[n]) else s.cells[n], mapped && !woken)
    ensures var heard := if woken then [P.WakeUp] else [];
            Tracks(s', n, P.Run(m, heard)) && P.Agrees(P.Run(m, heard)) && P.HookedRun(m, heard)
  {
    P.StepAgrees(m, P.WakeUp);
    RunSingle(m, P.WakeUp);
    CellOfMachine(m);
    hide P.Agrees, P.Run, P.HookedRun;
  }

  lemma TurnTracks(s: Sched, clock: nat, r: Readings, b: Stretch, n: Name, m: P.Machine, cs: seq<P.Choice>)
    requires Inv(s, clock) && Timely(s, clock, r) && FreshTurn(s, r, b)
    requires P.Agrees(m) && Tracks(s, n, m) && m.place != P.Gone
    requires Chosen(s, r) == Some(n) ==>
               Conducts(b, P.Step(P.Run(m, HeardOfClock(s, n, r.cut2)), P.Resumed), cs)
    ensures Shape(s)
    ensures var heard := HeardOfTurn(s, r, b, n, m, cs);
            Tracks(Turn(s, r, b).sched, n, P.Run(m, heard)) && P.Agrees(P.Run(m, heard)) && P.HookedRun(m, heard)
  {
    assert Shape(s);
    ClockStep(s, clock, r.cut2, multiset{}, []);
    ResumePoint(s, clock, r);
    CheckReadyTracks(s, r.cut2, r.cut1, r.cut2, n, m);
    var heard := HeardOfClock(s, n, r.cut2);
    var m0 := P.Run(m, heard);
    var s2 := AtResume(s, r);
    SameTracks(CheckReady(s, r.cut1, r.cut2), s2, n, m0);
    hide MidInv, CheckReady, WorkSteal.PopFront, Resume, FreshStretch, Runnable;
    hide P.Agrees, P.Run, P.Step, P.HookedRun, Conducts, OwnChoices;
    match Chosen(s, r) {
      case None =>
        RunSingle(m0, P.WakeUp);
        RunConcat(m, heard, []);
      case Some(x) =>
        if x == n {
          InHandPlace(s2, r.cut2, n, m0);
          OwnTurnTracks(s2, r.cut2, n, r.now1, b, r.now2, m0, cs);
          RunConcat(m, heard, OwnChoices(m0, b, cs));
        } else {
          var woken := Wakes(b, n, Turn(s, r, b).Ran?);
          OtherTurn(s2, r.cut2, x, r.now1, b, r.now2, n);
          OtherTracks(s2, Turn(s, r, b).sched, n, m0, woken);
          RunConcat(m, heard, if woken then [P.WakeUp] else []);
        }
    }
  }

  lemma SameTracks(s: Sched, s': Sched, n: Name, m: P.Machine)
    requires Tracks(s, n, m) && s'.cells == s.cells && s'.syscall == s.syscall && s'.lost == s.lost
    ensures Tracks(s', n, m)
  {
  }

  lemma InHandPlace(s: Sched, clock: nat, n: Name, m: P.Machine)
    requires MidInv(s, clock, multiset{n}, []) && Tracks(s, n, m) && m.place != P.Gone
    ensures m.place == P.Resting || m.place == P.InQueue
  {
    HeldIsApart(s, clock, multiset{n}, [], n);
    hide MidInv;
  }

  lemma OtherTurn(s: Sched, clock: nat, x: Name, now1: nat, b: Stretch, now2: nat, n: Name)
    requires MidInv(s, clock, multiset{x}, []) && x in s.cells && Runnable(s.cells[x], clock)
    requires clock <= now1 <= now2 && FreshStretch(s, x, now1, b) && x != n
    ensures var r := Resume(s, x, now1, b, now2);
            n in s.cells ==>
              var mapped, woken := n in s.syscall, Wakes(b, n, r.Ran?);
              At(r.sched, n, if mapped && woken then WokenCell(s.cells[n]) else s.cells[n], mapped && !woken)
  {
    if n in s.cells {
      ResumeOtherAt(s, clock, x, now1, b, now2, n, s.cells[n], n in s.syscall);
    }
  }

  ghost function HeardOf(s: Sched, mv: Move, n: Name, m: P.Machine, cs: seq<P.Choice>): seq<P.Choice>
    requires Shape(s)
  {
    if m.place == P.Gone then [] else
    match mv
    case MSubmit(_) => []
    case MWake(x) => if x == n then [P.WakeUp] else []
    case MTurn(r, b) => HeardOfTurn(s, r, b, n, m, cs)
  }

  /** If the move resumes `n`, its body follows the program with the choices `cs`. */
  ghost predicate Obeys(s: Sched, mv: Move, n: Name, m: P.Machine, cs: seq<P.Choice>)
    requires Shape(s)
  {
    m.place != P.Gone && mv.MTurn? && Chosen(s, mv.readings) == Some(n) ==>
      Conducts(mv.stretch, P.Step(P.Run(m, HeardOfClock(s, n, mv.readings.cut2)), P.Resumed), cs)
  }

  lemma MoveTracks(s: Sched, clock: nat, mv: Move, n: Name, m: P.Machine, cs: seq<P.Choice>)
    requires Inv(s, clock) && Legal(s, clock, mv) && P.Agrees(m) && Tracks(s, n, m) && Obeys(s, mv, n, m, cs)
    ensures var heard := HeardOf(s, mv, n, m, cs);
            Tracks(Apply(s, mv), n, P.Run(m, heard)) && P.Agrees(P.Run(m, heard)) && P.HookedRun(m, heard)
  {
    assert Shape(s);
    RunSingle(m, P.WakeUp);
    if m.place == P.Gone {
      hide MidInv, Apply, P.Run, P.Agrees;
      StaysFinished(s, clock, mv, n);
    } else {
      match mv {
        case MSubmit(x) =>
          EffectAt(s, clock, multiset{}, Spawn(x), n, s.cells[n], n in s.syscall);
          hide MidInv, DoEffect;
          OtherTracks(s, DoEffect(s, Spawn(x)), n, m, false);
        case MWake(x) =>
          EffectAt(s, clock, multiset{}, Wake(x), n, s.cells[n], n in s.syscall);
          hide MidInv, DoEffect;
          OtherTracks(s, DoEffect(s, Wake(x)), n, m, x == n);
        case MTurn(r, b) =>
          hide MidInv, Turn, Tracks, P.Agrees, HeardOfTurn, Conducts;
          TurnTracks(s, clock, r, b, n, m, cs);
      }
    }
  }

  /** A finished coroutine stays so, and is never resumed again. */
  lemma StaysFinished(s: Sched, clock: nat, mv: Move, n: Name)
    requires Inv(s, clock) && Shape(s) && Legal(s, clock, mv) && HasFinished(s, n)
    ensures HasFinished(Apply(s, mv), n)
    ensures mv.MTurn? ==> Chosen(s, mv.readings) != Some(n)
  {
    match mv {
      case MSubmit(x) =>
        EffectAt(s, clock, multiset{}, Spawn(x), n, s.cells[n], false);
      case MWake(x) =>
        EffectAt(s, clock, multiset{}, Wake(x), n, s.cells[n], false);
      case MTurn(r, b) =>
        hide MidInv, Turn, HasFinished;
        TurnFinished(s, clock, r, b, n);
    }
  }

  lemma TurnFinished(s: Sched, clock: nat, r: Readings, b: Stretch, n: Name)
    requires Inv(s, clock) && Shape(s) && Timely(s, clock, r) && FreshTurn(s, r, b) && HasFinished(s, n)
    ensures HasFinished(Turn(s, r, b).sched, n) && Chosen(s, r) != Some(n)
  {
    ClockStep(s, clock, r.cut2, multiset{}, []);
    ResumePoint(s, clock, r);
    TurnKeeps(s, clock, r, b);
    CheckReadyCell(s, r.cut2, r.cut1, r.cut2, n);
    var s2 := AtResume(s, r);
    assert At(s2, n, s.cells[n], false);
    assert Chosen(s, r) != Some(n) by {
      hide MidInv, CheckReady, WorkSteal.PopFront;
    }
    hide MidInv, CheckReady, WorkSteal.PopFront, Resume, FreshStretch, Runnable;
    if Chosen(s, r).Some? {
      OtherTurn(s2, r.cut2, Chosen(s, r).value, r.now1, b, r.now2, n);
    }
  }

  ghost predicate ObeyedRun(s: Sched, clock: nat, ms: seq<Move>, n: Name, m: P.Machine, css: seq<seq<P.Choice>>)
    requires Inv(s, clock) && LegalRun(s, clock, ms) && |css| == |ms|
    decreases |ms|
  {
    ms == [] ||
    (&& Obeys(s, ms[0], n, m, css[0])
     && (MoveKeeps(s, clock, ms[0]);
         ObeyedRun(Apply(s, ms[0]), ClockAfter(clock, ms[0]), ms[1..], n, P.Run(m, HeardOf(s, ms[0], n, m, css[0])), css[1..])))
  }

  /** What the machine hears of a whole run. */
  ghost function HeardAlong(s: Sched, clock: nat, ms: seq<Move>, n: Name, m: P.Machine, css: seq<seq<P.Choice>>): seq<P.Choice>
    requires Inv(s, clock) && LegalRun(s, clock, ms) && |css| == |ms|
    decreases |ms|
  {
    if ms == [] then [] else
    MoveKeeps(s, clock, ms[0]);
    var first := HeardOf(s, ms[0], n, m, css[0]);
    first + HeardAlong(Apply(s, ms[0]), ClockAfter(clock, ms[0]), ms[1..], n, P.Run(m, first), css[1..])
  }

  /**
   * In every legal run of the scheduler in which the bodies of coroutine `n` follow the hook program,
   * what happens to `n` (its own choices, the expiry of its deadlines, wake-ups by name, resumption)
   * is a hooked run of the machine, and the scheduler has `n` where the machine says.
   */
  lemma {:induction false} RunTracks(s: Sched, clock: nat, ms: seq<Move>, n: Name, m: P.Machine, css: seq<seq<P.Choice>>)
    requires Inv(s, clock) && LegalRun(s, clock, ms) && |css| == |ms|
    requires P.Agrees(m) && Tracks(s, n, m) && ObeyedRun(s, clock, ms, n, m, css)
    ensures var heard := HeardAlong(s, clock, ms, n, m, css);
            P.HookedRun(m, heard) && P.Agrees(P.Run(m, heard)) && Tracks(Run(s, clock, ms).0, n, P.Run(m, heard))
    decreases |ms|
  {
    if ms == [] {
      RunSingle(m, P.WakeUp);
    } else {
      var first := HeardOf(s, ms[0], n, m, css[0]);
      MoveTracks(s, clock, ms[0], n, m, css[0]);
      MoveKeeps(s, clock, ms[0]);
      hide MidInv, Apply, Legal, Obeys, HeardOf, P.Agrees, P.Run, P.HookedRun, Tracks;
      var s1, c1, m1 := Apply(s, ms[0]), ClockAfter(clock, ms[0]), P.Run(m, first);
      RunTracks(s1, c1, ms[1..], n, m1, css[1..]);
      RunConcat(m, first, HeardAlong(s1, c1, ms[1..], n, m1, css[1..]));
    }
  }
}
