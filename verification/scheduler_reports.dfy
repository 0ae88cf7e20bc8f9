// What the listeners of the scheduler are told about a coroutine that makes hooked system calls: the
// suspensions and wake-ups of the protocol, no more and no less, in order.
module SchedulerReports {
  import opened Constants
  import opened StateMachine
  import opened SchedulerModel
  import opened SchedulerInvariant
  import opened SchedulerRuns
  import opened SchedulerTheorems
  import opened SchedulerProtocol
  import P = SyscallProtocol
  import WorkSteal

  // ---------- the reports in the log ----------

  /** What an event tells about `n` inside system calls: the state it came back or was resumed in. */
  function ReportOf(e: Event, n: Name): seq<CoroutineState> {
    if e.name != n then []
    else
      match e
      case OnResume(_, st) => if st.SystemCall? then [st] else []
      case OnSyscall(_, call, sub) => [SystemCall(call, sub)]
      case _ => []
  }

  function Reports(log: seq<Event>, n: Name): seq<CoroutineState> {
    if log == [] then [] else Reports(log[..|log| - 1], n) + ReportOf(log[|log| - 1], n)
  }

  lemma ReportsSnoc(log: seq<Event>, e: Event, n: Name)
    ensures Reports(log + [e], n) == Reports(log, n) + ReportOf(e, n)
  {
    assert (log + [e])[..|log|] == log;
  }

  lemma EffectReports(s: Sched, e: Effect, n: Name)
    requires s.me < |s.ready.locals|
    ensures Reports(DoEffect(s, e).log, n) == Reports(s.log, n)
  {
    if e.Spawn? {
      ReportsSnoc(s.log, OnCreate(e.name), n);
    }
  }

  lemma EffectShape(s: Sched, e: Effect)
    requires s.me < |s.ready.locals|
    ensures DoEffect(s, e).me == s.me && |DoEffect(s, e).ready.locals| == |s.ready.locals|
  {
  }

  lemma {:induction false} EffectsReports(s: Sched, es: seq<Effect>, n: Name)
    requires s.me < |s.ready.locals|
    ensures Reports(DoEffects(s, es).log, n) == Reports(s.log, n)
    decreases |es|
  {
    if es != [] {
      EffectReports(s, es[0], n);
      EffectShape(s, es[0]);
      hide Reports, DoEffect;
      EffectsReports(DoEffect(s, es[0]), es[1..], n);
    }
  }

  lemma {:induction false} ActsReports(s: Sched, x: Name, acts: seq<Act>, n: Name)
    requires s.me < |s.ready.locals|
    ensures Reports(DoActs(s, x, acts).log, n) == Reports(s.log, n)
    decreases |acts|
  {
    if acts != [] {
      if acts[0].Do? {
        EffectReports(s, acts[0].effect, n);
        EffectShape(s, acts[0].effect);
      }
      hide Reports, DoEffect, HookStep;
      ActsReports(ActStep(s, x, acts[0]), x, acts[1..], n);
    }
  }

  lemma RunBodyReports(s: Sched, x: Name, now1: nat, b: Stretch, n: Name)
    requires s.me < |s.ready.locals| && x in s.cells && ToRunning(s.cells[x], now1).Some?
    ensures Reports(RunBody(s, x, now1, b).log, n) == Reports(s.log, n) + ReportOf(OnResume(x, s.cells[x]), n)
  {
    var e := OnResume(x, s.cells[x]);
    var s1 := SetCell(Report(s, e), x, ToRunning(s.cells[x], now1).value);
    ReportsSnoc(s.log, e, n);
    ActsReports(s1, x, b.acts, n);
    hide Reports, DoActs, ReportOf;
  }

  lemma EndReports(s: Sched, x: Name, st: CoroutineState, reaction: seq<Effect>, now: nat, n: Name)
    requires s.me < |s.ready.locals| && HasEnded(st)
    ensures Reports(Place(DoEffects(Conclude(s, x, st), reaction), x, st, now).log, n) ==
            Reports(s.log, n) + ReportOf(EndEvent(x, st), n)
  {
    var s3 := Conclude(s, x, st);
    assert s3.log == s.log + [EndEvent(x, st)] && s3.me < |s3.ready.locals|;
    ReportsSnoc(s.log, EndEvent(x, st), n);
    hide Reports, DoEffects, ReportOf, EndEvent, Conclude, Place;
    EffectsReports(s3, reaction, n);
    PlaceTells(DoEffects(s3, reaction), x, st, now);
  }

  lemma PlaceTells(s: Sched, x: Name, st: CoroutineState, now: nat)
    requires s.me < |s.ready.locals|
    ensures Place(s, x, st, now).log == s.log
  {
  }

  /** A resume of `x` tells of `x` alone: the state it starts in and the state it ends in. */
  lemma ResumeReports(s: Sched, x: Name, now1: nat, b: Stretch, now2: nat, n: Name)
    requires s.me < |s.ready.locals| && x in s.cells && ToRunning(s.cells[x], now1).Some?
    requires x in RunBody(s, x, now1, b).cells
    ensures var st := AfterBody(RunBody(s, x, now1, b).cells[x], b.end);
            Reports(Resume(s, x, now1, b, now2).sched.log, n) ==
            Reports(s.log, n) + ReportOf(OnResume(x, s.cells[x]), n)
            + if st.Some? then ReportOf(EndEvent(x, st.value), n) else []
  {
    RunBodyReports(s, x, now1, b, n);
    var s2 := RunBody(s, x, now1, b);
    var st := AfterBody(s2.cells[x], b.end);
    if st.Some? {
      EndReports(s2, x, st.value, b.reaction, now2, n);
    }
    hide Reports, RunBody, DoEffects, ReportOf, Place, Conclude, EndEvent, AfterBody, ToRunning;
  }

  // ---------- the waits in the trace ----------

  predicate IsSuspend(st: CoroutineState) {
    st.SystemCall? && st.sub.Suspend?
  }

  /** The suspensions in a trace, each with the state it was woken in. */
  function Waits(trace: seq<CoroutineState>): seq<CoroutineState> {
    if trace == [] then []
    else
      var k := |trace| - 1;
      Waits(trace[..k]) + if IsSuspend(trace[k]) || (k > 0 && IsSuspend(trace[k - 1])) then [trace[k]] else []
  }

  lemma WaitsSnoc(trace: seq<CoroutineState>, st: CoroutineState)
    requires trace != []
    ensures Waits(trace + [st]) ==
            Waits(trace) + if IsSuspend(st) || IsSuspend(trace[|trace| - 1]) then [st] else []
  {
    assert (trace + [st])[..|trace|] == trace;
  }

  /** The trace ends in the present state. */
  predicate Synced(m: P.Machine) {
    m.trace != [] && m.trace[|m.trace| - 1] == m.cell
  }

  /** A wake-up that the scheduler has not yet reported: the coroutine is queued. */
  function Unreported(m: P.Machine): seq<CoroutineState> {
    if m.place == P.InQueue then [m.cell] else []
  }

  /** What an own choice writes: one state, or the two that end a call. */
  lemma OwnStepTrace(m: P.Machine, c: P.Choice)
    requires P.Agrees(m) && Enabled(m, c)
    ensures var m' := P.Step(m, c);
            && (c.End? ==> m.calls != [] && m'.cell == Running && m'.place != P.InMap
                           && m'.trace == m.trace + [SystemCall(m.calls[0], Finished)] + [Running])
            && (!c.End? ==> m'.trace == m.trace + [m'.cell] && (m'.place == P.InMap <==> IsSuspend(m'.cell)))
  {
    hide P.ReadAll;
  }

  lemma OwnStepWaits(m: P.Machine, c: P.Choice)
    requires P.Agrees(m) && Synced(m) && Enabled(m, c)
    ensures var m' := P.Step(m, c);
            Synced(m') && Waits(m'.trace) == Waits(m.trace) + if m'.place == P.InMap then [m'.cell] else []
  {
    NotSuspended(m);
    OwnStepTrace(m, c);
    var m' := P.Step(m, c);
    assert m.place == P.InBody;
    hide P.Step, P.Agrees, Enabled, Waits;
    if c.End? {
      hide Reports;
      var st := SystemCall(m.calls[0], Finished);
      WaitsSnoc(m.trace, st);
      WaitsSnoc(m.trace + [st], Running);
    } else {
      WaitsSnoc(m.trace, m'.cell);
    }
  }

  lemma NotSuspended(m: P.Machine)
    requires P.Agrees(m)
    ensures m.place == P.InBody ==> !IsSuspend(m.cell)
  {
    hide P.ReadAll;
  }

  /** Of a body that follows the program, only a final wait shows. */
  lemma {:induction false} ProgramWaits(m: P.Machine, cs: seq<P.Choice>)
    requires P.Agrees(m) && Synced(m) && Program(m, cs) && m.place == P.InBody
    ensures var m' := P.Run(m, cs);
            Synced(m') && Waits(m'.trace) == Waits(m.trace) + if m'.place == P.InMap then [m'.cell] else []
    decreases cs
  {
    if cs != [] {
      var m1 := P.Step(m, cs[0]);
      OwnStepWaits(m, cs[0]);
      EnabledHooks(m, cs[0]);
      P.StepAgrees(m, cs[0]);
      hide P.Step, P.Agrees, Waits, Synced;
      if m1.place == P.InBody {
        ProgramWaits(m1, cs[1..]);
      } else {
        assert cs[1..] == [] by {
          hide *;
          NothingAfter(m1, cs[1..]);
        }
      }
    }
  }

  /** A wake-up shows in the trace at once, and in the reports when the coroutine is resumed. */
  lemma WakeWaits(m: P.Machine, c: P.Choice)
    requires P.Agrees(m) && Synced(m) && (c == P.Expire || c == P.WakeUp)
    ensures var m' := P.Step(m, c);
            Synced(m') && exists w :: Waits(m'.trace) == Waits(m.trace) + w && Unreported(m') == Unreported(m) + w
  {
    CellOfMachine(m);
    var m' := P.Step(m, c);
    if m.place == P.InMap {
      assert m'.trace == m.trace + [m'.cell];
      WaitsSnoc(m.trace, m'.cell);
      assert Waits(m'.trace) == Waits(m.trace) + [m'.cell] && Unreported(m') == Unreported(m) + [m'.cell];
    } else {
      assert m' == m;
      assert Waits(m'.trace) == Waits(m.trace) + [] && Unreported(m') == Unreported(m) + [];
    }
  }

  // ---------- a turn ----------

  /** Everything the trace says about waiting has been reported, after `r0`, but for a wake-up in the queue. */
  ghost predicate Told(log: seq<Event>, n: Name, m: P.Machine, r0: seq<CoroutineState>) {
    Synced(m) && Reports(log, n) + Unreported(m) == r0 + Waits(m.trace)
  }

  /** A wake-up, by the clock or by name, that leaves the reports alone. */
  lemma WakeTold(log: seq<Event>, log': seq<Event>, n: Name, m: P.Machine, c: P.Choice, r0: seq<CoroutineState>)
    requires P.Agrees(m) && Told(log, n, m, r0) && (c == P.Expire || c == P.WakeUp)
    requires Reports(log', n) == Reports(log, n)
    ensures Told(log', n, P.Step(m, c), r0)
  {
    hide P.Step, P.Agrees, Waits, Reports, Unreported, Synced;
    WakeWaits(m, c);
    var m' := P.Step(m, c);
    var w :| Waits(m'.trace) == Waits(m.trace) + w && Unreported(m') == Unreported(m) + w;
    Regroup(Reports(log, n), Unreported(m), w);
    Regroup(r0, Waits(m.trace), w);
  }

  lemma Regroup(a: seq<CoroutineState>, b: seq<CoroutineState>, c: seq<CoroutineState>)
    ensures a + (b + c) == a + b + c
  {
  }

  /** The machine's side of the coroutine's own turn. */
  lemma OwnWaits(m: P.Machine, b: Stretch, cs: seq<P.Choice>)
    requires P.Agrees(m) && Synced(m) && (m.place == P.Resting || m.place == P.InQueue)
    requires Conducts(b, P.Step(m, P.Resumed), cs)
    ensures var m3 := P.Run(m, OwnChoices(m, b, cs));
            && Synced(m3) && Unreported(m3) == []
            && Waits(m3.trace) == Waits(m.trace) + if m3.place == P.InMap then [m3.cell] else []
  {
    assert Program(P.Step(m, P.Resumed), cs);
    hide P.Step, P.Agrees, P.Run, Waits, Program, Ending;
    var m1 := P.Step(m, P.Resumed);
    P.StepAgrees(m, P.Resumed);
    ResumedMachine(m);
    ResumedTrace(m);
    OwnMachine(m, b, cs);
    ProgramHooks(m1, cs);
    ProgramWaits(m1, cs);
    var m2 := P.Run(m1, cs);
    EndingTrace(m2, b);
    RunSingle(m, P.Resumed);
    RunConcat(m, [P.Resumed], cs + Ending(m2, b));
    RunConcat(m1, cs, Ending(m2, b));
  }

  lemma ResumedTrace(m: P.Machine)
    requires P.Agrees(m)
    ensures P.Step(m, P.Resumed).trace == m.trace
  {
    hide P.ReadAll;
  }

  lemma EndingTrace(m: P.Machine, b: Stretch)
    requires m.place == P.InMap || (m.place == P.InBody && m.pc == P.Outside)
    ensures P.Run(m, Ending(m, b)).trace == m.trace && P.Run(m, Ending(m, b)).cell == m.cell
    ensures (P.Run(m, Ending(m, b)).place == P.InMap) == (m.place == P.InMap)
  {
    RunSingle(m, if b.end.Yields? then P.Pause else P.Quit);
    hide P.Run;
  }

  /** What the end of a stretch tells about system calls. */
  function EndReport(cell: CoroutineState, end: End): seq<CoroutineState> {
    var st := AfterBody(cell, end);
    if st.Some? && st.value.SystemCall? then [st.value] else []
  }

  lemma OwnReports(s: Sched, clock: nat, n: Name, now1: nat, b: Stretch, now2: nat, running: CoroutineState)
    requires MidInv(s, clock, multiset{n}, []) && n in s.cells && Runnable(s.cells[n], clock)
    requires clock <= now1 <= now2 && FreshStretch(s, n, now1, b)
    requires if s.cells[n].SystemCall? then running == s.cells[n] else running == Running
    ensures Reports(Resume(s, n, now1, b, now2).sched.log, n) ==
            Reports(s.log, n) + (if s.cells[n].SystemCall? then [s.cells[n]] else [])
            + EndReport(HookRun(running, Hooks(b.acts)), b.end)
  {
    assert Shape(s);
    hide MidInv, RunBody, Resume, Reports, FreshStretch, Runnable, HookRun;
    RunBodyKeeps(s, clock, n, now1, b);
    RunsAs(s.cells[n], clock, now1, running);
    ResumeReports(s, n, now1, b, now2, n);
    EndTells(n, HookRun(running, Hooks(b.acts)), b.end);
    hide AfterBody, ReportOf, EndReport;
    assert ReportOf(OnResume(n, s.cells[n]), n) == if s.cells[n].SystemCall? then [s.cells[n]] else [] by {
      ResumeTells(n, s.cells[n]);
    }
  }

  lemma RunsAs(st: CoroutineState, clock: nat, now1: nat, running: CoroutineState)
    requires Runnable(st, clock) && clock <= now1 && if st.SystemCall? then running == st else running == Running
    ensures ToRunning(st, now1) == Some(running)
  {
  }

  lemma ResumeTells(n: Name, st: CoroutineState)
    ensures ReportOf(OnResume(n, st), n) == if st.SystemCall? then [st] else []
  {
  }

  lemma EndTells(n: Name, cell: CoroutineState, end: End)
    ensures var st := AfterBody(cell, end);
            EndReport(cell, end) == if st.Some? then ReportOf(EndEvent(n, st.value), n) else []
  {
  }

  /** The coroutine's own turn: what was unreported is reported, and a new wait is reported at once. */
  lemma OwnTold(s: Sched, clock: nat, n: Name, now1: nat, b: Stretch, now2: nat, m: P.Machine, cs: seq<P.Choice>,
                r0: seq<CoroutineState>)
    requires MidInv(s, clock, multiset{n}, []) && n in s.cells && Runnable(s.cells[n], clock)
    requires clock <= now1 <= now2 && FreshStretch(s, n, now1, b)
    requires P.Agrees(m) && Tracks(s, n, m) && (m.place == P.Resting || m.place == P.InQueue)
    requires Conducts(b, P.Step(m, P.Resumed), cs) && Told(s.log, n, m, r0)
    ensures Told(Resume(s, n, now1, b, now2).sched.log, n, P.Run(m, OwnChoices(m, b, cs)), r0)
  {
    assert Shape(s);
    hide P.Agrees, MidInv, P.Step, P.Run, OwnChoices, Conducts, Waits, Reports, Resume, Synced, Runnable, HookRun;
    assert Synced(m);
    hide Tracks, Unreported, FreshStretch, Told, EndReport;
    RunningCell(s, n, m);
    OwnMachine(m, b, cs);
    OwnWaits(m, b, cs);
    OwnReports(s, clock, n, now1, b, now2, m.cell);
    var m3 := P.Run(m, OwnChoices(m, b, cs));
    var w := if m3.place == P.InMap then [m3.cell] else [];
    EndWaits(m3, b.end);
    TellsOn(s.log, Resume(s, n, now1, b, now2).sched.log, n, m, m3, r0, w);
  }

  lemma EndWaits(m: P.Machine, end: End)
    requires m.place == P.InMap ==> m.cell.SystemCall? && end.Yields?
    requires m.place != P.InMap ==> m.cell == Running
    ensures EndReport(m.cell, end) == if m.place == P.InMap then [m.cell] else []
  {
  }

  lemma TellsOn(log: seq<Event>, log': seq<Event>, n: Name, m: P.Machine, m3: P.Machine, r0: seq<CoroutineState>,
                w: seq<CoroutineState>)
    requires Told(log, n, m, r0) && Reports(log', n) == Reports(log, n) + Unreported(m) + w
    requires Synced(m3) && Unreported(m3) == [] && Waits(m3.trace) == Waits(m.trace) + w
    ensures Told(log', n, m3, r0)
  {
    hide Reports, Waits, Unreported, Synced;
    Regroup(r0, Waits(m.trace), w);
  }

  lemma RunningCell(s: Sched, n: Name, m: P.Machine)
    requires P.Agrees(m) && Tracks(s, n, m) && (m.place == P.Resting || m.place == P.InQueue) && n in s.cells
    ensures if s.cells[n].SystemCall? then m.cell == s.cells[n] else m.cell == Running
    ensures Unreported(m) == if s.cells[n].SystemCall? then [s.cells[n]] else []
  {
    CellOfMachine(m);
    hide P.Agrees;
  }

  lemma OtherReports(s: Sched, clock: nat, x: Name, now1: nat, b: Stretch, now2: nat, n: Name)
    requires MidInv(s, clock, multiset{x}, []) && x in s.cells && Runnable(s.cells[x], clock)
    requires clock <= now1 <= now2 && FreshStretch(s, x, now1, b) && x != n
    ensures s.me < |s.ready.locals|
    ensures Reports(Resume(s, x, now1, b, now2).sched.log, n) == Reports(s.log, n)
  {
    assert Shape(s);
    hide MidInv, RunBody, Resume, Reports, FreshStretch, Runnable;
    RunBodyKeeps(s, clock, x, now1, b);
    ResumeReports(s, x, now1, b, now2, n);
  }

  /** What the listeners hear of a turn about `n`, the turn not being its own. */
  lemma TurnReports(s: Sched, clock: nat, r: Readings, b: Stretch, n: Name)
    requires Inv(s, clock) && Shape(s) && Timely(s, clock, r) && FreshTurn(s, r, b) && Chosen(s, r) != Some(n)
    ensures Reports(Turn(s, r, b).sched.log, n) == Reports(s.log, n)
  {
    ResumePoint(s, clock, r);
    CheckReadyShape(s, r.cut1, r.cut2);
    hide MidInv, CheckReady, WorkSteal.PopFront, Resume, FreshStretch, Runnable, Reports;
    if Chosen(s, r).Some? {
      OtherReports(AtResume(s, r), r.cut2, Chosen(s, r).value, r.now1, b, r.now2, n);
    }
  }

  lemma ClockTold(s: Sched, n: Name, cut2: nat, m: P.Machine, r0: seq<CoroutineState>)
    requires P.Agrees(m) && Told(s.log, n, m, r0)
    ensures Told(s.log, n, P.Run(m, HeardOfClock(s, n, cut2)), r0)
  {
    RunSingle(m, P.Expire);
    WakeTold(s.log, s.log, n, m, P.Expire, r0);
    hide P.Agrees, P.Run, P.Step, Told;
  }

  lemma OtherTold(log: seq<Event>, log': seq<Event>, n: Name, m: P.Machine, woken: bool, r0: seq<CoroutineState>)
    requires P.Agrees(m) && Told(log, n, m, r0) && Reports(log', n) == Reports(log, n)
    ensures Told(log', n, P.Run(m, if woken then [P.WakeUp] else []), r0)
  {
    RunSingle(m, P.WakeUp);
    WakeTold(log, log', n, m, P.WakeUp, r0);
    hide P.Agrees, P.Run, P.Step, Reports, Waits;
  }

  lemma TurnTold(s: Sched, clock: nat, r: Readings, b: Stretch, n: Name, m: P.Machine, cs: seq<P.Choice>,
                 r0: seq<CoroutineState>)
    requires Inv(s, clock) && Shape(s) && Timely(s, clock, r) && FreshTurn(s, r, b)
    requires P.Agrees(m) && Tracks(s, n, m) && m.place != P.Gone && Told(s.log, n, m, r0)
    requires Chosen(s, r) == Some(n) ==>
               Conducts(b, P.Step(P.Run(m, HeardOfClock(s, n, r.cut2)), P.Resumed), cs)
    ensures Told(Turn(s, r, b).sched.log, n, P.Run(m, HeardOfTurn(s, r, b, n, m, cs)), r0)
  {
    hide MidInv, FreshTurn, Told, P.Agrees, P.Run, P.Step, Conducts, HeardOfClock, Tracks;
    var heard := HeardOfClock(s, n, r.cut2);
    var m0 := P.Run(m, heard);
    ClockTold(s, n, r.cut2, m, r0);
    MachineAtResume(s, clock, r, n, m);
    if Chosen(s, r) == Some(n) {
      OwnTurnTold(s, clock, r, b, n, m0, cs, r0);
      RunConcat(m, heard, OwnChoices(m0, b, cs));
    } else {
      TurnReports(s, clock, r, b, n);
      var woken := Chosen(s, r).Some? && Wakes(b, n, Turn(s, r, b).Ran?);
      OtherTold(s.log, Turn(s, r, b).sched.log, n, m0, woken, r0);
      RunConcat(m, heard, if woken then [P.WakeUp] else []);
    }
    hide Turn, Chosen, OwnChoices;
  }

  /** The machine when the chosen coroutine is about to be resumed. */
  lemma MachineAtResume(s: Sched, clock: nat, r: Readings, n: Name, m: P.Machine)
    requires Inv(s, clock) && Shape(s) && Timely(s, clock, r) && P.Agrees(m) && Tracks(s, n, m) && m.place != P.Gone
    ensures var m0 := P.Run(m, HeardOfClock(s, n, r.cut2));
            P.Agrees(m0) && m0.place != P.Gone && Tracks(AtResume(s, r), n, m0)
  {
    ClockStep(s, clock, r.cut2, multiset{}, []);
    CheckReadyTracks(s, r.cut2, r.cut1, r.cut2, n, m);
    CheckReadyShape(s, r.cut1, r.cut2);
    hide MidInv, CheckReady, WorkSteal.PopFront, P.Agrees, P.Run, HeardOfClock;
    SameTracks(CheckReady(s, r.cut1, r.cut2), AtResume(s, r), n, P.Run(m, HeardOfClock(s, n, r.cut2)));
  }

  lemma OwnTurnTold(s: Sched, clock: nat, r: Readings, b: Stretch, n: Name, m0: P.Machine, cs: seq<P.Choice>,
                    r0: seq<CoroutineState>)
    requires Inv(s, clock) && Shape(s) && Timely(s, clock, r) && FreshTurn(s, r, b) && Chosen(s, r) == Some(n)
    requires P.Agrees(m0) && Tracks(AtResume(s, r), n, m0) && m0.place != P.Gone && Told(s.log, n, m0, r0)
    requires Conducts(b, P.Step(m0, P.Resumed), cs)
    ensures Told(Turn(s, r, b).sched.log, n, P.Run(m0, OwnChoices(m0, b, cs)), r0)
  {
    ResumePoint(s, clock, r);
    CheckReadyShape(s, r.cut1, r.cut2);
    var s2 := AtResume(s, r);
    hide MidInv, CheckReady, WorkSteal.PopFront, Resume, FreshStretch, Runnable, Told, Tracks;
    hide P.Agrees, P.Run, P.Step, Conducts, OwnChoices;
    InHandPlace(s2, r.cut2, n, m0);
    OwnTold(s2, r.cut2, n, r.now1, b, r.now2, m0, cs, r0);
  }

  // ---------- whole runs ----------

  lemma MoveTold(s: Sched, clock: nat, mv: Move, n: Name, m: P.Machine, cs: seq<P.Choice>, r0: seq<CoroutineState>)
    requires Inv(s, clock) && Shape(s) && Legal(s, clock, mv) && P.Agrees(m) && Tracks(s, n, m)
    requires Obeys(s, mv, n, m, cs) && Told(s.log, n, m, r0)
    ensures Told(Apply(s, mv).log, n, P.Run(m, HeardOf(s, mv, n, m, cs)), r0)
  {
    match mv {
      case MSubmit(x) =>
        EffectReports(s, Spawn(x), n);
        hide MidInv, DoEffect, P.Agrees, P.Run, Told;
        OtherTold(s.log, DoEffect(s, Spawn(x)).log, n, m, false, r0);
      case MWake(x) =>
        EffectReports(s, Wake(x), n);
        hide MidInv, DoEffect, P.Agrees, P.Run, Told;
        OtherTold(s.log, DoEffect(s, Wake(x)).log, n, m, m.place != P.Gone && x == n, r0);
      case MTurn(r, b) =>
        if m.place == P.Gone {
          StaysFinished(s, clock, mv, n);
          hide MidInv, Turn, P.Agrees, P.Run, Told, HeardOfTurn, FreshTurn;
          TurnReports(s, clock, r, b, n);
          OtherTold(s.log, Turn(s, r, b).sched.log, n, m, false, r0);
        } else {
          hide MidInv, Turn, Tracks, P.Agrees, P.Run, HeardOfTurn, Conducts, Told;
          TurnTold(s, clock, r, b, n, m, cs, r0);
        }
    }
  }

  /** Along every such run, the reports about `n` are exactly the waits in the machine's trace. */
  lemma {:induction false} RunTold(s: Sched, clock: nat, ms: seq<Move>, n: Name, m: P.Machine, css: seq<seq<P.Choice>>,
                                   r0: seq<CoroutineState>)
    requires Inv(s, clock) && LegalRun(s, clock, ms) && |css| == |ms|
    requires P.Agrees(m) && Tracks(s, n, m) && ObeyedRun(s, clock, ms, n, m, css) && Told(s.log, n, m, r0)
    ensures Told(Run(s, clock, ms).0.log, n, P.Run(m, HeardAlong(s, clock, ms, n, m, css)), r0)
    decreases |ms|
  {
    if ms == [] {
      RunSingle(m, P.WakeUp);
    } else {
      assert Shape(s);
      var first := HeardOf(s, ms[0], n, m, css[0]);
      MoveTracks(s, clock, ms[0], n, m, css[0]);
      MoveTold(s, clock, ms[0], n, m, css[0], r0);
      MoveKeeps(s, clock, ms[0]);
      hide MidInv, Apply, Legal, Obeys, HeardOf, P.Agrees, P.Run, Tracks, Told;
      var s1, c1, m1 := Apply(s, ms[0]), ClockAfter(clock, ms[0]), P.Run(m, first);
      RunTold(s1, c1, ms[1..], n, m1, css[1..], r0);
      RunConcat(m, first, HeardAlong(s1, c1, ms[1..], n, m1, css[1..]));
    }
  }

  /**
   * A coroutine ready for its first call goes through the states of the protocol, whatever else the
   * scheduler does: in the run of the machine that the scheduler's run is for it, no `expect` or
   * `unreachable!` of the hooks fires; outside any call its states so far are whole calls one after
   * another; and the listeners have been told exactly its waits, each suspension and the state it was
   * woken in, but for a wake-up that is still queued.
   */
  lemma ProtocolInRuns(s: Sched, clock: nat, ms: seq<Move>, n: Name, css: seq<seq<P.Choice>>)
    requires Inv(s, clock) && LegalRun(s, clock, ms) && |css| == |ms|
    requires n in s.cells && s.cells[n] == Ready && n !in s.syscall
    requires ObeyedRun(s, clock, ms, n, P.Newborn(), css)
    ensures var m := P.Run(P.Newborn(), HeardAlong(s, clock, ms, n, P.Newborn(), css));
            var s' := Run(s, clock, ms).0;
            && !m.panicked && P.ReadAll(m.trace) != P.Reject && Tracks(s', n, m)
            && (m.place == P.Gone ==> IsFinished(s', n))
            && (m.place == P.Resting || m.place == P.Gone ==> exists calls :: m.trace == P.Life(calls))
            && Reports(s'.log, n) + Unreported(m) == Reports(s.log, n) + Waits(m.trace)
  {
    P.NewbornAgrees();
    var m0 := P.Newborn();
    assert Waits(m0.trace) == [] by {
      assert m0.trace[..0] == [];
    }
    assert Told(s.log, n, m0, Reports(s.log, n)) && Tracks(s, n, m0);
    RunKeeps(s, clock, ms);
    hide MidInv, ObeyedRun, LegalRun, Run, HeardAlong, Reports, Waits, Tracks;
    RunTracks(s, clock, ms, n, m0, css);
    RunTold(s, clock, ms, n, m0, css, Reports(s.log, n));
    var m := P.Run(m0, HeardAlong(s, clock, ms, n, m0, css));
    P.AgreesMeans(m);
    if m.place == P.Gone {
      GoneIsFinished(Run(s, clock, ms).0, Run(s, clock, ms).1, n, m);
    }
  }

  lemma GoneIsFinished(s: Sched, clock: nat, n: Name, m: P.Machine)
    requires Inv(s, clock) && Tracks(s, n, m) && m.place == P.Gone
    ensures IsFinished(s, n)
  {
    FinishedIsReported(s, clock, n);
  }
}
