// The state protocol of a hooked system call, run across `change_state!` (syscall/state.rs),
// `wait_just` (net/event_loop.rs) and the scheduler that wakes the waiting coroutine.
module SyscallProtocol {
  import opened Constants
  import opened StateMachine
  import SchedulerModel

  /** Where the program of the hooked call stands. */
  datatype Pc = Outside | Inner | Waiting | Back | Selecting

  /**
   * Who has the coroutine: its own body runs; the syscall map or, woken from there, the ready queue
   * holds it; it rests outside any call; or it has finished.
   */
  datatype Place = InBody | InMap | InQueue | Resting | Gone

  datatype Machine = Machine(
    pc: Pc, place: Place, cell: CoroutineState, calls: seq<Syscall>, trace: seq<CoroutineState>, panicked: bool)

  datatype Choice =
    | Begin(call: Syscall)   // `change_state!` is entered
    | Wait(until: nat)       // the inner call asks `wait_just` to wait
    | Expire                 // a deadline entry naming the coroutine is due
    | WakeUp                 // `try_resume` by name
    | Resumed                // the scheduler pops and resumes it
    | GoSelect               // `wait_just` goes on to the selector; without a timeout it starts here
    | Selected               // the selector returns
    | End                    // the inner call returns
    | Pause                  // a yield outside any call
    | Quit                   // the body returns or panics outside any call

  function Start(): Machine {
    Machine(Outside, InBody, Running, [], [Running], false)
  }

  /** A state change whose result is `expect`ed: the thread panics if the transition is refused. */
  function Must(m: Machine, next: Option<CoroutineState>): Machine {
    match next
    case Some(st) => m.(cell := st, trace := m.trace + [st])
    case None => m.(panicked := true)
  }

  /** The `match` of `wait_just` on the current state, for its waiting part. */
  function CallToWaitIn(st: CoroutineState): Option<Syscall> {
    match st
    case Running => Some(EpollWait)
    case SystemCall(call, _) => Some(call)
    case _ => None
  }

  function Step(m: Machine, c: Choice): Machine {
    if m.panicked then m else
    match c
    case Begin(call) =>
      if m.pc != Outside || m.place != InBody then m else
      Must(m.(pc := Inner, calls := [call] + m.calls), ToSyscall(m.cell, call, Computing))
    case Wait(t) =>
      if !(m.pc == Inner || m.pc == Outside) || m.place != InBody then m else
      (match CallToWaitIn(m.cell)
       case None => m.(panicked := true)
       case Some(call) =>
         var m1 := Must(m.(pc := Waiting), ToSyscall(m.cell, call, Suspend(t)));
         // the delay yields; in a `SystemCall` state the scheduler files the coroutine in its map
         if AfterBody(m1.cell, Yields(0)) == Some(m1.cell) then m1.(place := InMap) else m1.(panicked := true))
    case Expire =>
      if m.place != InMap then m else
      var st := SchedulerModel.ExpiredCell(m.cell);
      m.(place := InQueue, cell := st, trace := m.trace + [st])
    case WakeUp =>
      if m.place != InMap then m else
      var st := SchedulerModel.WokenCell(m.cell);
      m.(place := InQueue, cell := st, trace := m.trace + [st])
    case Resumed =>
      if m.place == Resting then m.(place := InBody) else
      if m.place != InQueue then m else
      if ToRunning(m.cell, 0) == Some(m.cell) then m.(place := InBody, pc := Back) else m.(panicked := true)
    case GoSelect =>
      if m.pc == Selecting || m.pc == Waiting || m.place != InBody then m else
      (match m.cell
       case SystemCall(call, Computing) => Must(m.(pc := Selecting), ToSyscall(m.cell, call, Calling(EpollWait)))
       case SystemCall(call, Timeout) => Must(m.(pc := Selecting), ToSyscall(m.cell, call, Calling(EpollWait)))
       case _ => m.(panicked := true))
    case Selected =>
      if m.pc != Selecting || m.place != InBody then m else
      (match m.cell
       case SystemCall(call, Calling(_)) =>
         Must(m.(pc := if m.calls == [] then Outside else Inner), ToSyscall(m.cell, call, Computing))
       case _ => m.(panicked := true))
    case End =>
      if m.pc != Inner || m.place != InBody || m.calls == [] then m else
      var m1 := Must(m, ToSyscall(m.cell, m.calls[0], Finished));
      if m1.panicked then m1 else
      var m2 := Must(m1, FromSyscall(m1.cell));
      if m2.panicked then m2 else m2.(pc := Outside, calls := m2.calls[1..])
    case Pause => if m.pc == Outside && m.place == InBody then m.(place := Resting) else m
    case Quit => if m.pc == Outside && m.place == InBody then m.(place := Gone) else m
  }

  function Run(m: Machine, cs: seq<Choice>): Machine
    decreases cs
  {
    if cs == [] then m else Run(Step(m, cs[0]), cs[1..])
  }

  // ---------- the language of traces ----------

  /** States of the acceptor; `Reject` is its error state. */
  datatype Acceptor =
    | AtRest
    | AtComputing(call: Syscall)
    | AtSuspend(call: Syscall)
    | AtWoken(call: Syscall)
    | AtCalling(call: Syscall)
    | AtFinished(call: Syscall)
    | Reject

  /**
   * Running, (S,Computing), { (S,Suspend t), (S,Timeout) or (S,Computing), (S,Calling), (S,Computing) },
   * (S,Finished), Running, and so on for the next call.
   */
  function Read(a: Acceptor, st: CoroutineState): Acceptor {
    match (a, st)
    case (AtRest, SystemCall(call, Computing)) => AtComputing(call)
    case (AtComputing(s), SystemCall(call, Suspend(_))) => if s == call then AtSuspend(s) else Reject
    case (AtComputing(s), SystemCall(call, Finished)) => if s == call then AtFinished(s) else Reject
    case (AtSuspend(s), SystemCall(call, Timeout)) => if s == call then AtWoken(s) else Reject
    case (AtSuspend(s), SystemCall(call, Computing)) => if s == call then AtWoken(s) else Reject
    case (AtWoken(s), SystemCall(call, Calling(inner))) =>
      if s == call && inner == EpollWait then AtCalling(s) else Reject
    case (AtCalling(s), SystemCall(call, Computing)) => if s == call then AtComputing(s) else Reject
    case (AtFinished(_), Running) => AtRest
    case _ => Reject
  }

  /** The acceptor after the trace, which must begin in `Running`. */
  function ReadAll(trace: seq<CoroutineState>): Acceptor {
    if trace == [] then Reject
    else if |trace| == 1 then (if trace[0] == Running then AtRest else Reject)
    else Read(ReadAll(trace[..|trace| - 1]), trace[|trace| - 1])
  }

  lemma ReadSnoc(trace: seq<CoroutineState>, st: CoroutineState)
    requires trace != []
    ensures ReadAll(trace + [st]) == Read(ReadAll(trace), st)
  {
    assert (trace + [st])[..|trace|] == trace;
  }

  // ---------- the same language as a grammar ----------

  /** What ends one wait. */
  datatype Waker = ByTimer | ByName

  function Woken(call: Syscall, waker: Waker): CoroutineState {
    SystemCall(call, if waker == ByTimer then Timeout else Computing)
  }

  /** The states that one wait of call `call` goes through. */
  function WaitTrace(call: Syscall, until: nat, waker: Waker): seq<CoroutineState> {
    [SystemCall(call, Suspend(until))] + [Woken(call, waker)] + [SystemCall(call, Calling(EpollWait))]
    + [SystemCall(call, Computing)]
  }

  function WaitsTrace(call: Syscall, waits: seq<(nat, Waker)>): seq<CoroutineState> {
    if waits == [] then []
    else WaitsTrace(call, waits[..|waits| - 1]) + WaitTrace(call, waits[|waits| - 1].0, waits[|waits| - 1].1)
  }

  /** One hooked call from entry to exit, and the whole life of a coroutine that makes such calls. */
  function CallTrace(call: Syscall, waits: seq<(nat, Waker)>): seq<CoroutineState> {
    [SystemCall(call, Computing)] + WaitsTrace(call, waits) + [SystemCall(call, Finished), Running]
  }

  function Life(calls: seq<(Syscall, seq<(nat, Waker)>)>): seq<CoroutineState> {
    if calls == [] then [Running]
    else Life(calls[..|calls| - 1]) + CallTrace(calls[|calls| - 1].0, calls[|calls| - 1].1)
  }

  /** What a call under way has written, by the acceptor's state; the wait under way is (`t`, `w`). */
  function SoFar(a: Acceptor, waits: seq<(nat, Waker)>, t: nat, w: Waker): seq<CoroutineState>
    decreases match a case AtComputing(_) => 0 case AtSuspend(_) => 1 case AtWoken(_) => 2 case _ => 3
  {
    match a
    case AtComputing(s) => [SystemCall(s, Computing)] + WaitsTrace(s, waits)
    case AtSuspend(s) => SoFar(AtComputing(s), waits, t, w) + [SystemCall(s, Suspend(t))]
    case AtWoken(s) => SoFar(AtSuspend(s), waits, t, w) + [Woken(s, w)]
    case AtCalling(s) => SoFar(AtWoken(s), waits, t, w) + [SystemCall(s, Calling(EpollWait))]
    case AtFinished(s) => SoFar(AtComputing(s), waits, t, w) + [SystemCall(s, Finished)]
    case _ => []
  }

  lemma FourMore(trace: seq<CoroutineState>, a: CoroutineState, b: CoroutineState, c: CoroutineState, d: CoroutineState)
    ensures trace + [a] + [b] + [c] + [d] == trace + ([a] + [b] + [c] + [d])
  {
  }

  lemma WaitsSnoc(call: Syscall, waits: seq<(nat, Waker)>, t: nat, w: Waker)
    ensures WaitsTrace(call, waits + [(t, w)]) == WaitsTrace(call, waits) + WaitTrace(call, t, w)
  {
    assert (waits + [(t, w)])[..|waits|] == waits;
  }

  /** One more state extends the parse of the call under way. */
  lemma ParseInCall(a: Acceptor, st: CoroutineState, waits: seq<(nat, Waker)>, t: nat, w: Waker)
    returns (waits': seq<(nat, Waker)>, t': nat, w': Waker)
    requires a != Reject && !a.AtFinished? && Read(a, st) != Reject
    ensures SoFar(Read(a, st), waits', t', w') == SoFar(a, waits, t, w) + [st]
  {
    waits', t', w' := waits, t, w;
    match a {
      case AtRest =>
        waits' := [];
      case AtComputing(s) =>
        if st.sub.Suspend? {
          t' := st.sub.until;
        }
      case AtSuspend(s) =>
        // the deadline is fixed by the state already written, the waker only by this one
        w' := if st.sub == Timeout then ByTimer else ByName;
      case AtWoken(s) =>
      case AtCalling(s) =>
        waits' := waits + [(t, w)];
        WaitsSnoc(s, waits, t, w);
    }
    hide WaitsTrace;
  }

  /** The return to `Running` completes a call. */
  lemma ParseLast(s: Syscall, calls: seq<(Syscall, seq<(nat, Waker)>)>, waits: seq<(nat, Waker)>, t: nat, w: Waker)
    ensures Life(calls + [(s, waits)]) == Life(calls) + SoFar(AtFinished(s), waits, t, w) + [Running]
  {
    assert (calls + [(s, waits)])[..|calls|] == calls;
    hide WaitsTrace;
  }

  /** Every accepted trace is a sequence of finished calls and at most one call under way. */
  lemma {:induction false} Parse(trace: seq<CoroutineState>)
    returns (calls: seq<(Syscall, seq<(nat, Waker)>)>, waits: seq<(nat, Waker)>, t: nat, w: Waker)
    requires ReadAll(trace) != Reject
    ensures trace == Life(calls) + SoFar(ReadAll(trace), waits, t, w)
  {
    if |trace| == 1 {
      calls, waits, t, w := [], [], 0, ByTimer;
      assert trace == [Running];
    } else {
      var before, st := trace[..|trace| - 1], trace[|trace| - 1];
      calls, waits, t, w := Parse(before);
      var a := ReadAll(before);
      assert trace == before + [st];
      assert Read(a, st) == ReadAll(trace);
      hide ReadAll, Life, WaitsTrace;
      if a.AtFinished? {
        ParseLast(a.call, calls, waits, t, w);
        calls := calls + [(a.call, waits)];
      } else {
        waits, t, w := ParseInCall(a, st, waits, t, w);
      }
    }
  }

  /** At rest, a trace is exactly a sequence of whole calls. */
  lemma AtRestIsLife(trace: seq<CoroutineState>)
    requires ReadAll(trace) == AtRest
    ensures exists calls :: trace == Life(calls)
  {
    var calls, waits, t, w := Parse(trace);
    assert trace == Life(calls);
  }

  /** The program, the cell, the place and the acceptor agree. */
  ghost predicate Agrees(m: Machine) {
    m.trace != [] && AgreesWith(m, ReadAll(m.trace))
  }

  ghost predicate AgreesWith(m: Machine, a: Acceptor) {
    && !m.panicked
    && match m.pc
       case Outside =>
         (m.place == InBody || m.place == Resting || m.place == Gone) && m.cell == Running && a == AtRest && m.calls == []
       case Inner =>
         m.place == InBody && |m.calls| == 1 && m.cell == SystemCall(m.calls[0], Computing)
         && a == AtComputing(m.calls[0])
       case Waiting =>
         && |m.calls| == 1 && m.cell.SystemCall? && m.cell.call == m.calls[0]
         && (m.place == InMap ==> m.cell.sub.Suspend? && a == AtSuspend(m.calls[0]))
         && (m.place == InQueue ==> m.cell.sub in {Computing, Timeout} && a == AtWoken(m.calls[0]))
         && (m.place == InMap || m.place == InQueue)
       case Back =>
         m.place == InBody && |m.calls| == 1 && m.cell.SystemCall? && m.cell.call == m.calls[0]
         && m.cell.sub in {Computing, Timeout} && a == AtWoken(m.calls[0])
       case Selecting =>
         m.place == InBody && |m.calls| == 1 && m.cell == SystemCall(m.calls[0], Calling(EpollWait))
         && a == AtCalling(m.calls[0])
  }

  /** Waiting happens inside a hooked call only, and with a timeout. */
  ghost predicate Hooked(m: Machine, c: Choice) {
    && (c.Wait? ==> m.pc != Outside)
    && (c.GoSelect? ==> m.pc == Back)
  }

  /** A choice other than `End` writes nothing or one state, and the acceptor follows. */
  lemma StepReads(m: Machine, c: Choice, a: Acceptor)
    requires AgreesWith(m, a) && Hooked(m, c) && !c.End?
    ensures var m' := Step(m, c);
            || (m'.trace == m.trace && AgreesWith(m', a))
            || (m'.trace == m.trace + [m'.cell] && AgreesWith(m', Read(a, m'.cell)))
  {
    match c {
      case Begin(_) =>
      case Wait(_) =>
      case Expire =>
      case WakeUp =>
      case Resumed =>
      case GoSelect =>
      case Selected =>
      case Pause =>
      case Quit =>
    }
  }

  /** The end of a call writes two states. */
  lemma EndReads(m: Machine, a: Acceptor)
    requires AgreesWith(m, a) && m.pc == Inner
    ensures var m' := Step(m, End); var st := SystemCall(m.calls[0], Finished);
            m'.trace == m.trace + [st] + [Running] && AgreesWith(m', Read(Read(a, st), Running))
  {
  }

  lemma StepAgrees(m: Machine, c: Choice)
    requires Agrees(m) && Hooked(m, c)
    ensures Agrees(Step(m, c))
  {
    var m' := Step(m, c);
    var a := ReadAll(m.trace);
    if !c.End? {
      StepReads(m, c, a);
      hide AgreesWith, Step, Read;
      if m'.trace != m.trace {
        ReadSnoc(m.trace, m'.cell);
      }
    } else if m.pc == Inner {
      EndReads(m, a);
      var st := SystemCall(m.calls[0], Finished);
      hide AgreesWith, Step, Read;
      ReadSnoc(m.trace, st);
      ReadSnoc(m.trace + [st], Running);
    }
  }

  ghost predicate HookedRun(m: Machine, cs: seq<Choice>)
    decreases cs
  {
    cs == [] || (Hooked(m, cs[0]) && HookedRun(Step(m, cs[0]), cs[1..]))
  }

  /**
   * For every run of hooked calls against every interleaving of timer expiry, `try_resume` and
   * resumption: no `expect` or `unreachable!` fires and the trace stays in the language.
   */
  lemma {:induction false} ProtocolHolds(m: Machine, cs: seq<Choice>)
    requires Agrees(m) && HookedRun(m, cs)
    ensures Agrees(Run(m, cs))
    ensures !Run(m, cs).panicked && ReadAll(Run(m, cs).trace) != Reject
    decreases cs
  {
    if cs != [] {
      StepAgrees(m, cs[0]);
      ProtocolHolds(Step(m, cs[0]), cs[1..]);
    }
  }

  /** A coroutine just submitted. */
  function Newborn(): Machine {
    Start().(place := Resting)
  }

  lemma NewbornAgrees()
    ensures Agrees(Newborn())
  {
  }

  lemma AgreesMeans(m: Machine)
    requires Agrees(m)
    ensures !m.panicked && ReadAll(m.trace) != Reject
    ensures m.place == Resting || m.place == Gone ==> exists calls :: m.trace == Life(calls)
  {
    if m.pc == Outside {
      AtRestIsLife(m.trace);
    }
    hide ReadAll;
  }

  /** The same in the grammar: outside a call, the states gone through are whole calls one after another. */
  lemma HookedLife(cs: seq<Choice>)
    requires HookedRun(Start(), cs)
    ensures !Run(Start(), cs).panicked
    ensures Run(Start(), cs).pc == Outside ==> exists calls :: Run(Start(), cs).trace == Life(calls)
  {
    StartAgrees();
    ProtocolHolds(Start(), cs);
    var m := Run(Start(), cs);
    if m.pc == Outside {
      AtRestIsLife(m.trace);
    }
  }

  lemma StartAgrees()
    ensures Agrees(Start())
  {
  }

  /** A wait without a timeout goes to the selector at once; it needs a hooked call around it. */
  lemma UntimedWait(m: Machine)
    requires Agrees(m) && (m.pc == Outside || m.pc == Inner) && m.place == InBody
    ensures Step(m, GoSelect).panicked <==> m.pc == Outside
    ensures m.pc == Inner ==>
              Step(Step(m, GoSelect), Selected).cell == m.cell && Step(Step(m, GoSelect), Selected).pc == Inner
  {
  }

  /** A hooked call is entered without a panic exactly from `Running` or from the same call. */
  lemma EntryCondition(m: Machine, call: Syscall)
    requires !m.panicked && m.pc == Outside && m.place == InBody
    ensures Step(m, Begin(call)).panicked <==>
            !(m.cell.Running? || (m.cell.SystemCall? && m.cell.call == call))
  {
  }

  /**
   * A wait outside any hooked call never returns the cell to `Running`: it ends in
   * (epoll_wait, Computing), and the next hooked call panics unless it is epoll_wait itself.
   */
  lemma UnhookedWaitBreaksNextCall(t: nat, wake: Choice, call: Syscall)
    requires wake == Expire || wake == WakeUp
    ensures var m := Run(Start(), [Wait(t), wake, Resumed, GoSelect, Selected]);
            && !m.panicked && m.pc == Outside && m.place == InBody
            && m.cell == SystemCall(EpollWait, Computing)
            && (Step(m, Begin(call)).panicked <==> call != EpollWait)
  {
    var m3 := Step(Step(Step(Start(), Wait(t)), wake), Resumed);
    WaitsAndReturns(t, wake);
    Selects(m3, EpollWait);
    EntryCondition(Step(Step(m3, GoSelect), Selected), call);
    hide Step, Run;
    RunFive(Start(), Wait(t), wake, Resumed, GoSelect, Selected);
  }

  lemma RunFive(m: Machine, a: Choice, b: Choice, c: Choice, d: Choice, e: Choice)
    ensures Run(m, [a, b, c, d, e]) == Step(Step(Step(Step(Step(m, a), b), c), d), e)
  {
    hide Step;
    var m1 := Step(m, a);
    var m2 := Step(m1, b);
    var m3 := Step(m2, c);
    var m4 := Step(m3, d);
    assert Run(Step(m4, e), []) == Step(m4, e);
    hide Run;
    RunOne(m4, e, []);
    RunOne(m3, d, [e]);
    RunOne(m2, c, [d, e]);
    RunOne(m1, b, [c, d, e]);
    RunOne(m, a, [b, c, d, e]);
    assert [e] + [] == [e];
  }

  lemma WaitsAndReturns(t: nat, wake: Choice)
    requires wake == Expire || wake == WakeUp
    ensures var m := Step(Step(Step(Start(), Wait(t)), wake), Resumed);
            && !m.panicked && m.pc == Back && m.place == InBody && m.calls == []
            && m.cell == SystemCall(EpollWait, if wake == Expire then Timeout else Computing)
  {
  }

  lemma Selects(m: Machine, call: Syscall)
    requires !m.panicked && m.pc == Back && m.place == InBody && m.calls == []
    requires m.cell == SystemCall(call, Timeout) || m.cell == SystemCall(call, Computing)
    ensures var m' := Step(Step(m, GoSelect), Selected);
            !m'.panicked && m'.pc == Outside && m'.place == InBody && m'.cell == SystemCall(call, Computing)
  {
  }

  lemma RunOne(m: Machine, c: Choice, cs: seq<Choice>)
    ensures Run(m, [c] + cs) == Run(Step(m, c), cs)
  {
    assert ([c] + cs)[1..] == cs;
  }

  // ---------- the hooks as methods on the state cell ----------

  class CurrentCoroutine {
    var cell: CoroutineState
    var calls: seq<Syscall>
    var trace: seq<CoroutineState>

    /** A transition that the source `expect`s to be accepted. */
    method Expected(next: Option<CoroutineState>)
      requires next.Some?
      modifies this`cell, this`trace
      ensures cell == next.value && trace == old(trace) + [cell]
    {
      cell := next.value;
      trace := trace + [cell];
    }

    /** `wait_just` with a timeout inside system call `call`; the scheduler's part is played by `waker`. */
    method WaitJust(ghost call: Syscall, until: nat, waker: Waker)
      requires cell == SystemCall(call, Computing)
      modifies this`cell, this`trace
      ensures cell == SystemCall(call, Computing)
      ensures trace == old(trace) + WaitTrace(call, until, waker)
    {
      FourMore(trace, SystemCall(call, Suspend(until)), Woken(call, waker), SystemCall(call, Calling(EpollWait)),
               SystemCall(call, Computing));
      var syscall := CallToWaitIn(cell).value;
      Expected(ToSyscall(cell, syscall, Suspend(until)));
      cell := if waker == ByTimer then SchedulerModel.ExpiredCell(cell) else SchedulerModel.WokenCell(cell);
      trace := trace + [cell];
      assert cell == Woken(call, waker);
      match cell {
        case SystemCall(s, sub) =>
          Expected(ToSyscall(cell, s, Calling(EpollWait)));
        case _ =>
          assert false;
      }
      Expected(ToSyscall(cell, syscall, Computing));
    }

    /** The inner call, which waits as `waits` says. */
    method Waits(ghost call: Syscall, waits: seq<(nat, Waker)>)
      requires cell == SystemCall(call, Computing)
      modifies this`cell, this`trace
      ensures cell == SystemCall(call, Computing)
      ensures trace == old(trace) + WaitsTrace(call, waits)
    {
      var i := 0;
      assert WaitsTrace(call, waits[..0]) == [];
      hide WaitsTrace, WaitTrace;
      while i < |waits|
        invariant i <= |waits| && cell == SystemCall(call, Computing)
        invariant trace == old(trace) + WaitsTrace(call, waits[..i])
      {
        assert waits[..i + 1] == waits[..i] + [(waits[i].0, waits[i].1)];
        WaitsSnoc(call, waits[..i], waits[i].0, waits[i].1);
        WaitJust(call, waits[i].0, waits[i].1);
        i := i + 1;
      }
      assert waits[..i] == waits;
    }

    /** `change_state!`: one whole call; the stack of current system calls is restored. */
    method ChangeState(call: Syscall, waits: seq<(nat, Waker)>)
      requires cell == Running
      modifies this
      ensures cell == Running && calls == old(calls)
      ensures trace == old(trace) + CallTrace(call, waits)
    {
      hide WaitsTrace;
      ghost var first, waited := [SystemCall(call, Computing)], WaitsTrace(call, waits);
      assert trace + first + waited + [SystemCall(call, Finished)] + [Running] == trace + CallTrace(call, waits);
      calls := [call] + calls;
      Expected(ToSyscall(cell, call, Computing));
      Waits(call, waits);
      Expected(ToSyscall(cell, call, Finished));
      Expected(FromSyscall(cell));
      calls := calls[1..];
    }
  }
}
