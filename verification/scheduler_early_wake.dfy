// A run in which a coroutine is told `Timeout` before its deadline, because of a stale deadline entry.
module SchedulerEarlyWake {
  import opened Constants
  import opened StateMachine
  import opened SchedulerModel
  import opened SchedulerInvariant
  import opened SchedulerRuns
  import opened SchedulerTheorems
  import Timer
  import WorkSteal

  const NOW := Readings(0, 0, 0, 0, 0)

  /** A stretch that suspends in `nanosleep` until `t`. */
  function SleepUntil(t: nat): Stretch {
    Stretch([Hook(Enter(Nanosleep, Suspend(t)))], Yields(0), [])
  }

  function Queue(names: seq<Name>): WorkSteal.Queues<Name> {
    WorkSteal.Queues([], [names], 4)
  }

  /** Waiting in `nanosleep` until `t`, with the given deadline entries. */
  function Waiting(t: nat, deadlines: Timer.Entries<Name>, tick: nat, log: seq<Event>): Sched {
    Sched(Queue([]), 0, tick, map[], map["a" := "a"], deadlines,
          map["a" := SystemCall(Nanosleep, Suspend(t))], log, [])
  }

  /** Only coroutine "a" exists and it is queued. */
  ghost predicate OnlyAQueued(s: Sched) {
    && s.ready == Queue(["a"]) && s.me == 0 && s.tick < 2
    && s.suspend == map[] && s.syscall == map[] && s.lost == []
    && (forall k | k in s.deadlines :: 0 < k)
    && (s.cells == map["a" := Ready] || s.cells == map["a" := SystemCall(Nanosleep, Computing)])
  }

  function Picked(s: Sched): Sched {
    s.(ready := Queue([]), tick := s.tick + 1)
  }

  lemma PicksA(s: Sched, b: Stretch)
    requires OnlyAQueued(s)
    ensures AtResume(s, NOW) == Picked(s) && Chosen(s, NOW) == Some("a")
    ensures Turn(s, NOW, b) == Resume(Picked(s), "a", 0, b, 0)
  {
    assert Timer.Later(s.suspend, 0) == s.suspend;
    assert Timer.Later(s.deadlines, 0) == s.deadlines;
    assert Timer.Due(s.suspend, 0) == [] && Timer.Due(s.deadlines, 0) == [];
    assert CheckReady(s, 0, 0) == s;
    var none: seq<Name> := [];
    assert ["a"][1..] == none;
    assert [["a"]][0 := none] == [none];
    assert WorkSteal.PopFront(s.ready, 0, s.tick + 1, 0) == WorkSteal.Popped(Queue([]), Some("a"));
    hide CheckReady, WorkSteal.PopFront, Resume;
  }

  /** After the body: inside `nanosleep`, about to be placed. */
  function Yielded(s: Sched, t: nat): Sched
    requires "a" in s.cells
  {
    Picked(s).(cells := map["a" := SystemCall(Nanosleep, Suspend(t))], log := s.log + [OnResume("a", s.cells["a"])])
  }

  lemma BodyYields(s: Sched, t: nat)
    requires OnlyAQueued(s)
    ensures FreshStretch(Picked(s), "a", 0, SleepUntil(t))
    ensures RunBody(Picked(s), "a", 0, SleepUntil(t)) == Yielded(s, t)
  {
    var b := SleepUntil(t);
    var s2 := Picked(s);
    var run := ToRunning(s.cells["a"], 0).value;
    var s3 := SetCell(Report(s2, OnResume("a", s.cells["a"])), "a", run);
    var s4 := SetCell(s3, "a", SystemCall(Nanosleep, Suspend(t)));
    assert b.acts[1..] == [];
    assert DoActs(s4, "a", []) == s4;
    assert s4.cells == map["a" := SystemCall(Nanosleep, Suspend(t))];
    assert FreshActs(s4, "a", []);
    assert FreshActs(s3, "a", b.acts);
  }

  lemma SleepsAgain(s: Sched, t: nat)
    requires OnlyAQueued(s)
    ensures FreshStretch(Picked(s), "a", 0, SleepUntil(t))
    ensures Resume(Picked(s), "a", 0, SleepUntil(t), 0).sched ==
            Waiting(t, Timer.Insert(s.deadlines, t, "a"), s.tick + 1,
                    s.log + [OnResume("a", s.cells["a"]), OnSyscall("a", Nanosleep, Suspend(t))])
  {
    BodyYields(s, t);
    var b := SleepUntil(t);
    var s4 := Yielded(s, t);
    var st := SystemCall(Nanosleep, Suspend(t));
    assert ToRunning(s.cells["a"], 0).Some? && AfterBody(st, b.end) == Some(st);
    hide RunBody, FreshStretch, ToRunning, AfterBody;
    var log := s.log + [OnResume("a", s.cells["a"])] + [OnSyscall("a", Nanosleep, Suspend(t))];
    assert log == s.log + [OnResume("a", s.cells["a"]), OnSyscall("a", Nanosleep, Suspend(t))];
    assert Resume(Picked(s), "a", 0, b, 0).sched.cells == map["a" := st];
  }

  /** A turn of a scheduler whose only coroutine "a" is queued and suspends again until `t`. */
  lemma SleepTurn(s: Sched, t: nat)
    requires OnlyAQueued(s)
    ensures FreshTurn(s, NOW, SleepUntil(t))
    ensures Turn(s, NOW, SleepUntil(t)).sched ==
            Waiting(t, Timer.Insert(s.deadlines, t, "a"), s.tick + 1,
                    s.log + [OnResume("a", s.cells["a"]), OnSyscall("a", Nanosleep, Suspend(t))])
  {
    PicksA(s, SleepUntil(t));
    SleepsAgain(s, t);
    hide Turn, Resume, FreshStretch, AtResume, Chosen;
  }

  const TRACE := [MSubmit("a"), MTurn(NOW, SleepUntil(10)), MWake("a"), MTurn(NOW, SleepUntil(100))]

  const FIRST := [OnCreate("a"), OnResume("a", Ready), OnSyscall("a", Nanosleep, Suspend(10))]

  const SECOND := FIRST + [OnResume("a", SystemCall(Nanosleep, Computing)), OnSyscall("a", Nanosleep, Suspend(100))]

  // The states that the trace goes through.

  const S0 := Sched(Queue([]), 0, 0, map[], map[], map[], map[], [], [])

  const S1 := Sched(Queue(["a"]), 0, 0, map[], map[], map[], map["a" := Ready], [OnCreate("a")], [])

  const D1: Timer.Entries<Name> := Timer.Insert(map[], 10, "a")

  const S2 := Waiting(10, D1, 1, FIRST)

  const S3 := Sched(Queue(["a"]), 0, 1, map[], map[], D1, map["a" := SystemCall(Nanosleep, Computing)], FIRST, [])

  const S4 := Waiting(100, Timer.Insert(D1, 100, "a"), 2, SECOND)

  lemma Move0()
    ensures Leads(S0, TRACE[0], S1)
  {
    var none: seq<Name> := [];
    assert none + ["a"] == ["a"];
    assert [none][0 := ["a"]] == [["a"]];
  }

  lemma Move1()
    ensures Leads(S1, TRACE[1], S2)
  {
    SleepTurn(S1, 10);
    assert [OnCreate("a")] + [OnResume("a", Ready), OnSyscall("a", Nanosleep, Suspend(10))] == FIRST;
  }

  lemma Move2()
    ensures Leads(S2, TRACE[2], S3)
  {
    assert map["a" := "a"] - {"a"} == map[];
    var none: seq<Name> := [];
    assert none + ["a"] == ["a"];
    assert [none][0 := ["a"]] == [["a"]];
  }

  lemma Move3()
    ensures Leads(S3, TRACE[3], S4)
  {
    SleepTurn(S3, 100);
  }

  ghost predicate Leads(s: Sched, m: Move, s': Sched) {
    s.me < |s.ready.locals| && 1 <= s.ready.capacity && ClockAfter(0, m) == 0 && Legal(s, 0, m) && Apply(s, m) == s'
  }

  lemma TwoMoves(s0: Sched, s1: Sched, s2: Sched, ms: seq<Move>)
    requires Inv(s0, 0) && |ms| >= 2 && Leads(s0, ms[0], s1) && Leads(s1, ms[1], s2)
    ensures Inv(s2, 0)
    ensures LegalRun(s0, 0, ms) <==> LegalRun(s2, 0, ms[2..])
    ensures LegalRun(s0, 0, ms) ==> Run(s0, 0, ms) == Run(s2, 0, ms[2..])
  {
    hide MidInv, Apply, Legal, LegalRun, Run;
    RunBack(s0, 0, ms);
    assert ms[1..][0] == ms[1] && ms[1..][1..] == ms[2..];
    RunBack(s1, 0, ms[1..]);
  }

  lemma FourMoves(s0: Sched, s1: Sched, s2: Sched, s3: Sched, s4: Sched, ms: seq<Move>)
    requires Inv(s0, 0) && |ms| == 4
    requires Leads(s0, ms[0], s1) && Leads(s1, ms[1], s2) && Leads(s2, ms[2], s3) && Leads(s3, ms[3], s4)
    ensures LegalRun(s0, 0, ms) && Run(s0, 0, ms) == (s4, 0) && Inv(s4, 0)
  {
    hide MidInv, Leads, LegalRun, Run;
    TwoMoves(s0, s1, s2, ms);
    assert ms[2..][0] == ms[2] && ms[2..][1] == ms[3] && ms[2..][2..] == [];
    TwoMoves(s2, s3, s4, ms[2..]);
    RunNothing(s4, 0);
  }

  lemma StartIsS0()
    ensures Start(1, 4, 0) == S0 && Inv(S0, 0)
  {
    StartInv(1, 4, 0);
    hide MidInv;
    assert Start(1, 4, 0).ready.locals == [[]];
  }

  lemma TraceRuns()
    ensures Start(1, 4, 0) == S0 && Inv(S0, 0) && LegalRun(S0, 0, TRACE)
    ensures Run(S0, 0, TRACE) == (S4, 0) && Inv(S4, 0)
  {
    hide MidInv, Leads, LegalRun, Run, S0, S1, S2, S3, S4, Start;
    StartIsS0();
    Move0();
    Move1();
    Move2();
    Move3();
    FourMoves(S0, S1, S2, S3, S4, TRACE);
  }

  /**
   * "Timeout is not delivered before the deadline" is false: after a wake-up by name the old entry
   * stays filed, and the next wait of the same coroutine is cut short by it, here at 50 instead of 100.
   */
  lemma EarlyWakeUp()
    ensures Inv(Start(1, 4, 0), 0) && LegalRun(Start(1, 4, 0), 0, TRACE)
    ensures var s := Run(Start(1, 4, 0), 0, TRACE).0;
            && s.me < |s.ready.locals| && "a" in s.cells && "a" in s.syscall
            && s.cells["a"] == SystemCall(Nanosleep, Suspend(100))
            && "a" in CheckReady(s, 50, 50).cells
            && CheckReady(s, 50, 50).cells["a"] == SystemCall(Nanosleep, Timeout)
  {
    TraceRuns();
    assert Filed(S4.deadlines, 10, "a");
    assert S4.cells["a"] == SystemCall(Nanosleep, Suspend(100));
    hide MidInv, CheckReady, LegalRun, Run;
    ClockStep(S4, 0, 50, multiset{}, []);
    WokenIffDue(S4, 50, 50, 50, "a");
  }

  lemma RunNothing(s: Sched, clock: nat)
    requires Inv(s, clock)
    ensures LegalRun(s, clock, []) && Run(s, clock, []) == (s, clock)
  {
  }
}
