// The scheduler of open-coroutine-core/src/scheduler/mod.rs as a transition system on values.
//
// A coroutine is its (fresh) name; its state cell lives in `cells`, and the four containers hold
// names. `log` is what a listener is told. The body of a coroutine is an oracle: on each resume it
// performs some acts and then yields, returns or panics.
module SchedulerModel {
  import opened Constants
  import opened StateMachine
  import Timer
  import WorkSteal

  type Name = string

  datatype Event =
    | OnCreate(name: Name)
    | OnResume(name: Name, state: CoroutineState)
    | OnSuspend(name: Name, timestamp: nat)
    | OnSyscall(name: Name, call: Syscall, sub: SyscallState)
    | OnComplete(name: Name)
    | OnError(name: Name, message: string)

  datatype Sched = Sched(
    ready: WorkSteal.Queues<Name>, me: nat, tick: nat,
    suspend: Timer.Entries<Name>,
    syscall: map<Name, Name>,
    deadlines: Timer.Entries<Name>,
    cells: map<Name, CoroutineState>,
    log: seq<Event>,
    lost: seq<Name>)

  /** What running code may do to the scheduler: submit a coroutine or wake one by name. */
  datatype Effect = Spawn(name: Name) | Wake(name: Name)

  datatype Act = Hook(hook: HookAct) | Do(effect: Effect)

  /** One stretch of a body: its acts, how it ends, and what the listeners do when told about the end. */
  datatype Stretch = Stretch(acts: seq<Act>, end: End, reaction: seq<Effect>)

  // ---------- the operations ----------

  function Push(s: Sched, n: Name): Sched
    requires s.me < |s.ready.locals|
  {
    s.(ready := WorkSteal.PushBack(s.ready, s.me, n))
  }

  /** Writing the state cell of coroutine `n`. */
  function SetCell(s: Sched, n: Name, st: CoroutineState): (r: Sched)
    ensures r.cells == s.cells[n := st]
    ensures r.me == s.me && r.ready == s.ready && r.log == s.log && r.lost == s.lost
    ensures r.syscall == s.syscall && r.deadlines == s.deadlines
  {
    s.(cells := s.cells[n := st])
  }

  /** Telling the listeners. */
  function Report(s: Sched, e: Event): (r: Sched)
    ensures r.log == s.log + [e]
    ensures r.me == s.me && r.ready == s.ready && r.cells == s.cells && r.lost == s.lost
    ensures r.syscall == s.syscall && r.deadlines == s.deadlines
  {
    s.(log := s.log + [e])
  }

  function Submit(s: Sched, n: Name): Sched
    requires s.me < |s.ready.locals|
  {
    Push(Report(SetCell(s, n, Ready), OnCreate(n)), n)
  }

  /** The cell of a coroutine woken by `try_resume`. */
  function WokenCell(c: CoroutineState): CoroutineState {
    if c.SystemCall? then SystemCall(c.call, Computing) else c
  }

  /** The cell of a coroutine taken from the syscall map because a deadline entry named it. */
  function ExpiredCell(c: CoroutineState): CoroutineState {
    if c.SystemCall? && c.sub.Suspend? then SystemCall(c.call, Timeout) else c
  }

  function TryResume(s: Sched, n: Name): Sched
    requires s.me < |s.ready.locals|
    requires n in s.syscall ==> s.syscall[n] in s.cells
  {
    if n !in s.syscall then s else
    var co := s.syscall[n];
    Push(s.(syscall := s.syscall - {n}, cells := s.cells[co := WokenCell(s.cells[co])]), co)
  }

  function WakeDue(s: Sched, ns: seq<Name>): Sched
    requires s.me < |s.ready.locals|
    decreases |ns|
  {
    if ns == [] then s else
    WakeDue(Push(SetCell(s, ns[0], Ready), ns[0]), ns[1..])
  }

  function ExpireOne(s: Sched, n: Name): Sched
    requires s.me < |s.ready.locals|
  {
    if n !in s.syscall || s.syscall[n] !in s.cells then s else
    var co := s.syscall[n];
    Push(s.(syscall := s.syscall - {n}, cells := s.cells[co := ExpiredCell(s.cells[co])]), co)
  }

  function Expire(s: Sched, ns: seq<Name>): (r: Sched)
    requires s.me < |s.ready.locals|
    ensures r.me == s.me && r.deadlines == s.deadlines && r.suspend == s.suspend && r.log == s.log
    ensures r.lost == s.lost && r.tick == s.tick && |r.ready.locals| == |s.ready.locals|
    decreases |ns|
  {
    if ns == [] then s else Expire(ExpireOne(s, ns[0]), ns[1..])
  }

  /**
   * `check_ready`: everything suspended until `cut1` or earlier becomes ready in (timestamp,
   * insertion) order, then every name with a syscall deadline of `cut2` or earlier is woken.
   */
  function CheckReady(s: Sched, cut1: nat, cut2: nat): Sched
    requires s.me < |s.ready.locals|
  {
    var s1 := WakeDue(s.(suspend := Timer.Later(s.suspend, cut1)), Timer.Due(s.suspend, cut1));
    WakeDueShape(s.(suspend := Timer.Later(s.suspend, cut1)), Timer.Due(s.suspend, cut1));
    Expire(s1.(deadlines := Timer.Later(s1.deadlines, cut2)), Timer.Due(s1.deadlines, cut2))
  }

  lemma {:induction false} WakeDueShape(s: Sched, ns: seq<Name>)
    requires s.me < |s.ready.locals|
    ensures var r := WakeDue(s, ns);
            && r.me == s.me && |r.ready.locals| == |s.ready.locals|
            && r.deadlines == s.deadlines && r.syscall == s.syscall && r.suspend == s.suspend
            && r.log == s.log && r.lost == s.lost && r.tick == s.tick
    decreases |ns|
  {
    if ns != [] {
      WakeDueShape(Push(SetCell(s, ns[0], Ready), ns[0]), ns[1..]);
    }
  }

  function DoEffect(s: Sched, e: Effect): Sched
    requires s.me < |s.ready.locals|
  {
    match e
    case Spawn(n) => Submit(s, n)
    case Wake(n) => if n in s.syscall && s.syscall[n] !in s.cells then s else TryResume(s, n)
  }

  function DoEffects(s: Sched, es: seq<Effect>): (r: Sched)
    requires s.me < |s.ready.locals|
    ensures r.me == s.me && |r.ready.locals| == |s.ready.locals|
    decreases |es|
  {
    if es == [] then s else DoEffects(DoEffect(s, es[0]), es[1..])
  }

  /** The acts of the running coroutine `n`, one after another. */
  function DoActs(s: Sched, n: Name, acts: seq<Act>): (r: Sched)
    requires s.me < |s.ready.locals|
    ensures r.me == s.me && |r.ready.locals| == |s.ready.locals|
    decreases |acts|
  {
    if acts == [] then s else
    var s' := match acts[0]
              case Hook(h) => if n in s.cells then SetCell(s, n, HookStep(s.cells[n], h)) else s
              case Do(e) => DoEffect(s, e);
    DoActs(s', n, acts[1..])
  }

  function EndEvent(n: Name, st: CoroutineState): (e: Event)
    requires HasEnded(st)
    ensures e.name == n
  {
    match st
    case Suspended(t) => OnSuspend(n, t)
    case SystemCall(call, sub) => OnSyscall(n, call, sub)
    case Complete => OnComplete(n)
    case Error(m) => OnError(n, m)
  }

  /** The end of a stretch: the state is set and the listeners are told, in one go. */
  function Conclude(s: Sched, n: Name, st: CoroutineState): Sched
    requires HasEnded(st)
  {
    Report(SetCell(s, n, st), EndEvent(n, st))
  }

  /** Where `try_timeout_schedule` puts a coroutine that came back in state `st` at clock `now`. */
  function Place(s: Sched, n: Name, st: CoroutineState, now: nat): Sched
    requires s.me < |s.ready.locals|
  {
    match st
    case Suspended(t) =>
      if t <= now then Push(s, n) else s.(suspend := Timer.Insert(s.suspend, t, n))
    case SystemCall(_, Suspend(t)) =>
      s.(deadlines := Timer.Insert(s.deadlines, t, n), syscall := s.syscall[n := n])
    case SystemCall(_, _) => s.(syscall := s.syscall[n := n])
    case _ => s
  }

  /** A coroutine whose resume failed is dropped. */
  function Drop(s: Sched, n: Name): (r: Sched)
    ensures r.lost == s.lost + [n]
  {
    s.(lost := s.lost + [n])
  }

  datatype Turned = Idle(sched: Sched) | Ran(sched: Sched) | Failed(sched: Sched)

  /** Telling the listeners, switching to `Running` unless in a system call, and executing the stretch. */
  function RunBody(s: Sched, n: Name, now1: nat, b: Stretch): (r: Sched)
    requires s.me < |s.ready.locals|
    requires n in s.cells && ToRunning(s.cells[n], now1).Some?
    ensures r.me == s.me && |r.ready.locals| == |s.ready.locals|
  {
    var s1 := Report(s, OnResume(n, s.cells[n]));
    DoActs(SetCell(s1, n, ToRunning(s.cells[n], now1).value), n, b.acts)
  }

  /** Resuming coroutine `n` (just popped) and dealing with the way its stretch ends. */
  function Resume(s: Sched, n: Name, now1: nat, b: Stretch, now2: nat): Turned
    requires s.me < |s.ready.locals|
    requires n in s.cells
  {
    if ToRunning(s.cells[n], now1).None? then Failed(Drop(s, n)) else
    var s2 := RunBody(s, n, now1, b);
    if n !in s2.cells then Failed(s2) else
    var st := AfterBody(s2.cells[n], b.end);
    if st.None? then Failed(Drop(s2, n)) else
    Ran(Place(DoEffects(Conclude(s2, n, st.value), b.reaction), n, st.value, now2))
  }

  /** The clock readings of one turn of the scheduling loop, and the random start of a steal scan. */
  datatype Readings = Readings(cut1: nat, cut2: nat, now1: nat, now2: nat, start: nat)

  /** One turn: `check_ready`, pop, resume. */
  function Turn(s: Sched, r: Readings, b: Stretch): Turned
    requires s.me < |s.ready.locals| && 1 <= s.ready.capacity
  {
    var s1 := CheckReady(s, r.cut1, r.cut2);
    CheckReadyShape(s, r.cut1, r.cut2);
    var t := WorkSteal.NextTick(s1.tick);
    var p := WorkSteal.PopFront(s1.ready, s1.me, t, r.start);
    var s2 := s1.(ready := p.queues, tick := t);
    match p.item
    case None => Idle(s2)
    case Some(n) =>
      if n in s2.cells && s2.me < |s2.ready.locals| then Resume(s2, n, r.now1, b, r.now2)
      else Failed(s2)
  }

  lemma {:induction false} WakeDueCapacity(s: Sched, ns: seq<Name>)
    requires s.me < |s.ready.locals|
    ensures WakeDue(s, ns).ready.capacity == s.ready.capacity
    decreases |ns|
  {
    if ns != [] {
      WakeDueCapacity(Push(SetCell(s, ns[0], Ready), ns[0]), ns[1..]);
    }
  }

  lemma {:induction false} ExpireCapacity(s: Sched, ns: seq<Name>)
    requires s.me < |s.ready.locals|
    ensures Expire(s, ns).ready.capacity == s.ready.capacity
    decreases |ns|
  {
    if ns != [] {
      ExpireCapacity(ExpireOne(s, ns[0]), ns[1..]);
    }
  }

  lemma CheckReadyShape(s: Sched, cut1: nat, cut2: nat)
    requires s.me < |s.ready.locals|
    ensures var r := CheckReady(s, cut1, cut2);
            && r.me == s.me && |r.ready.locals| == |s.ready.locals|
            && r.ready.capacity == s.ready.capacity
            && r.log == s.log && r.lost == s.lost && r.tick == s.tick
            && r.suspend == Timer.Later(s.suspend, cut1)
            && r.deadlines == Timer.Later(s.deadlines, cut2)
  {
    var s0 := s.(suspend := Timer.Later(s.suspend, cut1));
    WakeDueShape(s0, Timer.Due(s.suspend, cut1));
    WakeDueCapacity(s0, Timer.Due(s.suspend, cut1));
    var s1 := WakeDue(s0, Timer.Due(s.suspend, cut1));
    ExpireCapacity(s1.(deadlines := Timer.Later(s1.deadlines, cut2)), Timer.Due(s1.deadlines, cut2));
  }
}
