// Two more runs of the scheduler in which an obvious claim fails.
module SchedulerFailures {
  import opened Constants
  import opened StateMachine
  import opened SchedulerModel
  import opened SchedulerInvariant
  import opened SchedulerRuns
  import opened SchedulerTheorems
  import opened SchedulerEarlyWake
  import WorkSteal

  lemma TwoMovesRun(s0: Sched, s1: Sched, s2: Sched, ms: seq<Move>)
    requires Inv(s0, 0) && |ms| == 2 && Leads(s0, ms[0], s1) && Leads(s1, ms[1], s2)
    ensures LegalRun(s0, 0, ms) && Run(s0, 0, ms) == (s2, 0) && Inv(s2, 0)
  {
    hide MidInv, Leads, LegalRun, Run;
    TwoMoves(s0, s1, s2, ms);
    assert ms[2..] == [];
    RunNothing(s2, 0);
  }

  // ---------- `size()` falls short ----------

  const TWO := [MSubmit("a"), MSubmit("b")]

  /** One worker of capacity 1, empty, with one coroutine, and after the second one has spilled. */
  const E0 := Sched(WorkSteal.Queues([], [[]], 1), 0, 0, map[], map[], map[], map[], [], [])

  const E1 := Sched(WorkSteal.Queues([], [["a"]], 1), 0, 0, map[], map[], map[], map["a" := Ready], [OnCreate("a")], [])

  const E2 := Sched(WorkSteal.Queues(["b"], [["a"]], 1), 0, 0, map[], map[], map[],
                    map["a" := Ready, "b" := Ready], [OnCreate("a"), OnCreate("b")], [])

  lemma FirstFits()
    ensures Leads(E0, TWO[0], E1)
  {
    var none: seq<Name> := [];
    assert none + ["a"] == ["a"];
    assert [none][0 := ["a"]] == [["a"]];
    var nothing: map<Name, CoroutineState> := map[];
    assert nothing["a" := Ready] == map["a" := Ready];
  }

  lemma SecondSpills()
    ensures Leads(E1, TWO[1], E2)
  {
    var none: seq<Name> := [];
    assert none + ["a"][..0] + ["b"] == ["b"];
    assert ["a"][0..] == ["a"];
    assert map["a" := Ready]["b" := Ready] == map["a" := Ready, "b" := Ready];
    assert [OnCreate("a")] + [OnCreate("b")] == [OnCreate("a"), OnCreate("b")];
  }

  lemma StartIsE0()
    ensures Start(1, 1, 0) == E0 && Inv(E0, 0)
  {
    StartInv(1, 1, 0);
    hide MidInv;
    assert Start(1, 1, 0).ready.locals == [[]];
  }

  /** Two coroutines are submitted and none has finished, but `size()` says 1. */
  lemma SizeFallsShort()
    ensures Inv(Start(1, 1, 0), 0) && LegalRun(Start(1, 1, 0), 0, TWO)
    ensures var s := Run(Start(1, 1, 0), 0, TWO).0;
            s.log == [OnCreate("a"), OnCreate("b")] && s.me < |s.ready.locals| && Size(s) == 1
  {
    StartIsE0();
    FirstFits();
    SecondSpills();
    assert Size(E2) == 1;
    hide MidInv, Leads, LegalRun, Run, E0, E1, E2, Start, Size;
    TwoMovesRun(E0, E1, E2, TWO);
    LogOfE2();
  }

  lemma LogOfE2()
    ensures E2.log == [OnCreate("a"), OnCreate("b")] && E2.me < |E2.ready.locals|
  {
  }

  // ---------- a schedule fails and drops a coroutine ----------

  /** A body that returns inside a system call. */
  const LEAVER := Stretch([Hook(Enter(Nanosleep, Computing))], Returns, [])

  const FALL := [MSubmit("a"), MTurn(NOW, LEAVER)]

  lemma BodyReturns()
    ensures FreshStretch(Picked(S1), "a", 0, LEAVER)
    ensures var s := RunBody(Picked(S1), "a", 0, LEAVER);
            "a" in s.cells && s.cells["a"] == SystemCall(Nanosleep, Computing) && s.lost == []
  {
    var s2 := Picked(S1);
    var s3 := SetCell(Report(s2, OnResume("a", Ready)), "a", Running);
    var s4 := SetCell(s3, "a", SystemCall(Nanosleep, Computing));
    assert LEAVER.acts[1..] == [];
    assert DoActs(s4, "a", []) == s4;
    assert FreshActs(s4, "a", []);
    assert FreshActs(s3, "a", LEAVER.acts);
  }

  lemma TurnFails()
    ensures FreshTurn(S1, NOW, LEAVER)
    ensures Turn(S1, NOW, LEAVER).Failed? && Turn(S1, NOW, LEAVER).sched.lost == ["a"]
  {
    assert OnlyAQueued(S1);
    PicksA(S1, LEAVER);
    BodyReturns();
    assert FreshTurn(S1, NOW, LEAVER) by {
      hide Turn, Resume, FreshStretch, RunBody;
    }
    hide Turn, FreshStretch, RunBody, AtResume, Chosen;
    assert Resume(Picked(S1), "a", 0, LEAVER, 0).Failed?;
  }

  lemma TurnLeads()
    ensures Leads(S1, FALL[1], Turn(S1, NOW, LEAVER).sched)
  {
    TurnFails();
    assert S1.me < |S1.ready.locals| && Timely(S1, 0, NOW);
    hide Turn, FreshTurn;
  }

  lemma FallRuns()
    ensures Start(1, 4, 0) == S0 && Inv(S0, 0) && LegalRun(S0, 0, FALL)
    ensures var s := Turn(S1, NOW, LEAVER).sched; Run(S0, 0, FALL) == (s, 0) && Inv(s, 0)
  {
    var s := Turn(S1, NOW, LEAVER).sched;
    hide MidInv, Leads, LegalRun, Run, S0, S1, Start, Turn;
    StartIsS0();
    Move0();
    TurnLeads();
    TwoMovesRun(S0, S1, s, FALL);
  }

  /** The turn returns an error, and the coroutine is in no container and was reported to nobody. */
  lemma FinishedInsideCall()
    ensures Inv(Start(1, 4, 0), 0) && LegalRun(Start(1, 4, 0), 0, FALL)
    ensures var s := Run(Start(1, 4, 0), 0, FALL).0;
            s.lost == ["a"] && IsDropped(s, "a") && !IsQueued(s, "a") && !IsInCall(s, "a") && !IsFinished(s, "a")
  {
    var s := Turn(S1, NOW, LEAVER).sched;
    hide MidInv, LegalRun, Run, S0, S1, Start, Turn, IsQueued, IsAsleep, IsInCall, IsFinished, IsDropped;
    FallRuns();
    TurnFails();
    ExactlyOnePlace(s, 0, "a");
    OnePlaceOnly(s);
  }

  lemma OnePlaceOnly(s: Sched)
    requires Count(IsQueued(s, "a")) + Count(IsAsleep(s, "a")) + Count(IsInCall(s, "a")) + Count(IsFinished(s, "a"))
             + Count(IsDropped(s, "a")) == Count("a" in s.cells) && s.lost == ["a"]
    ensures IsDropped(s, "a") && !IsQueued(s, "a") && !IsInCall(s, "a") && !IsFinished(s, "a")
  {
    assert IsDropped(s, "a");
  }
}
