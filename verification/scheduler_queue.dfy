// The ready queue under a scheduler: every run of the scheduler is a run of the work-stealing queue, so
// what is proved of the queue (its order, its bounded wait) holds for the resumption of coroutines.
module SchedulerQueue {
  import opened Constants
  import opened StateMachine
  import opened SchedulerModel
  import opened SchedulerInvariant
  import opened SchedulerRuns
  import T = SchedulerTheorems
  import Impl = Scheduler
  import Timer
  import WorkSteal
  import WorkStealOrder

  // ---------- which names are queued, in which order ----------

  /** What one effect queues when `waiting` are in the syscall map: a spawn its name, a wake-up a name that waits. */
  function QueuedBy(e: Effect, waiting: set<Name>): seq<Name> {
    if e.Spawn? || e.name in waiting then [e.name] else []
  }

  function WaitingAfter(e: Effect, waiting: set<Name>): set<Name> {
    if e.Wake? then waiting - {e.name} else waiting
  }

  /** The names queued by effects, in order; nobody is woken twice. */
  function Queued(es: seq<Effect>, waiting: set<Name>): seq<Name>
    decreases es
  {
    if es == [] then [] else QueuedBy(es[0], waiting) + Queued(es[1..], WaitingAfter(es[0], waiting))
  }

  /** Who still waits after the effects. */
  function StillWaiting(es: seq<Effect>, waiting: set<Name>): set<Name>
    decreases es
  {
    if es == [] then waiting else StillWaiting(es[1..], WaitingAfter(es[0], waiting))
  }

  function Spawns(ns: seq<Name>): seq<Effect> {
    if ns == [] then [] else [Spawn(ns[0])] + Spawns(ns[1..])
  }

  function Wakes(ns: seq<Name>): seq<Effect> {
    if ns == [] then [] else [Wake(ns[0])] + Wakes(ns[1..])
  }

  function EffectsIn(acts: seq<Act>): seq<Effect> {
    if acts == [] then []
    else (if acts[0].Do? then [acts[0].effect] else []) + EffectsIn(acts[1..])
  }

  lemma {:induction false} QueuedConcat(a: seq<Effect>, b: seq<Effect>, waiting: set<Name>)
    ensures Queued(a + b, waiting) == Queued(a, waiting) + Queued(b, StillWaiting(a, waiting))
    ensures StillWaiting(a + b, waiting) == StillWaiting(b, StillWaiting(a, waiting))
    decreases a
  {
    if a == [] {
      assert a + b == b;
    } else {
      assert (a + b)[1..] == a[1..] + b && (a + b)[0] == a[0];
      hide QueuedBy, WaitingAfter;
      QueuedConcat(a[1..], b, WaitingAfter(a[0], waiting));
    }
  }

  function PushAll(q: WorkSteal.Queues<Name>, me: nat, ns: seq<Name>): (r: WorkSteal.Queues<Name>)
    requires me < |q.locals|
    ensures |r.locals| == |q.locals| && r.capacity == q.capacity
    decreases ns
  {
    if ns == [] then q else PushAll(WorkSteal.PushBack(q, me, ns[0]), me, ns[1..])
  }

  lemma {:induction false} PushAllConcat(q: WorkSteal.Queues<Name>, me: nat, a: seq<Name>, b: seq<Name>)
    requires me < |q.locals|
    ensures PushAll(q, me, a + b) == PushAll(PushAll(q, me, a), me, b)
    decreases a
  {
    if a == [] {
      assert a + b == b;
    } else {
      assert (a + b)[1..] == a[1..] + b && (a + b)[0] == a[0];
      WorkSteal.SharedGrows(q, me, a[0]);
      hide WorkSteal.PushBack;
      PushAllConcat(WorkSteal.PushBack(q, me, a[0]), me, a[1..], b);
    }
  }

  ghost predicate Mapped(s: Sched) {
    s.me < |s.ready.locals| && forall n | n in s.syscall :: s.syscall[n] == n && n in s.cells
  }

  /** From `s` to `r` the names of `es` were queued and the log has grown. */
  ghost predicate Did(s: Sched, r: Sched, es: seq<Effect>) {
    && s.me < |s.ready.locals| && Mapped(r) && r.me == s.me && r.tick == s.tick && s.log <= r.log
    && r.ready == PushAll(s.ready, s.me, Queued(es, s.syscall.Keys))
    && r.syscall.Keys == StillWaiting(es, s.syscall.Keys)
  }

  lemma DidBoth(s: Sched, r: Sched, t: Sched, a: seq<Effect>, b: seq<Effect>)
    requires Did(s, r, a) && Did(r, t, b)
    ensures Did(s, t, a + b)
  {
    QueuedConcat(a, b, s.syscall.Keys);
    hide Mapped, PushAll, Queued, StillWaiting;
    PushAllConcat(s.ready, s.me, Queued(a, s.syscall.Keys), Queued(b, r.syscall.Keys));
  }

  lemma DidNothing(s: Sched, r: Sched)
    requires Mapped(s) && Mapped(r) && r.me == s.me && r.tick == s.tick && s.log <= r.log
    requires r.ready == s.ready && r.syscall.Keys == s.syscall.Keys
    ensures Did(s, r, [])
  {
  }

  lemma PushOne(q: WorkSteal.Queues<Name>, me: nat, n: Name)
    requires me < |q.locals|
    ensures PushAll(q, me, [n]) == WorkSteal.PushBack(q, me, n)
    ensures |WorkSteal.PushBack(q, me, n).locals| == |q.locals|
  {
    WorkSteal.SharedGrows(q, me, n);
    assert [n][1..] == [];
    hide WorkSteal.PushBack;
    var q' := WorkSteal.PushBack(q, me, n);
    assert PushAll(q', me, []) == q';
  }

  lemma QueuedOne(e: Effect, waiting: set<Name>)
    ensures Queued([e], waiting) == QueuedBy(e, waiting) && StillWaiting([e], waiting) == WaitingAfter(e, waiting)
  {
    assert [e][1..] == [];
    assert Queued([], WaitingAfter(e, waiting)) == [];
  }

  lemma EffectDid(s: Sched, e: Effect)
    requires Mapped(s)
    ensures Did(s, DoEffect(s, e), [e])
  {
    QueuedOne(e, s.syscall.Keys);
    PushOne(s.ready, s.me, e.name);
    hide WorkSteal.PushBack, PushAll, Queued, StillWaiting;
    if e.Wake? && e.name !in s.syscall {
      assert s.syscall.Keys - {e.name} == s.syscall.Keys;
      assert PushAll(s.ready, s.me, []) == s.ready by {
        PushNone(s.ready, s.me);
      }
    }
  }

  lemma PushNone(q: WorkSteal.Queues<Name>, me: nat)
    requires me < |q.locals|
    ensures PushAll(q, me, []) == q
  {
  }

  lemma {:induction false} EffectsDid(s: Sched, es: seq<Effect>)
    requires Mapped(s)
    ensures Did(s, DoEffects(s, es), es)
    decreases es
  {
    if es == [] {
      DidNothing(s, s);
    } else {
      EffectDid(s, es[0]);
      hide DoEffect;
      EffectsDid(DoEffect(s, es[0]), es[1..]);
      DidBoth(s, DoEffect(s, es[0]), DoEffects(s, es), [es[0]], es[1..]);
      assert [es[0]] + es[1..] == es;
    }
  }

  lemma {:induction false} ActsDid(s: Sched, n: Name, acts: seq<Act>)
    requires Mapped(s)
    ensures Did(s, DoActs(s, n, acts), EffectsIn(acts))
    decreases acts
  {
    if acts == [] {
      DidNothing(s, s);
    } else {
      var s' := ActStep(s, n, acts[0]);
      var first := if acts[0].Do? then [acts[0].effect] else [];
      if acts[0].Do? {
        EffectDid(s, acts[0].effect);
      } else {
        DidNothing(s, s');
      }
      hide DoEffect, Did;
      assert Mapped(s') by {
        DidMapped(s, s', first);
      }
      ActsDid(s', n, acts[1..]);
      DidBoth(s, s', DoActs(s, n, acts), first, EffectsIn(acts[1..]));
    }
  }

  lemma DidMapped(s: Sched, r: Sched, es: seq<Effect>)
    requires Did(s, r, es)
    ensures Mapped(r)
  {
  }

  lemma {:induction false} WakeDueDid(s: Sched, ns: seq<Name>)
    requires Mapped(s)
    ensures Did(s, WakeDue(s, ns), Spawns(ns))
    decreases ns
  {
    if ns == [] {
      DidNothing(s, s);
    } else {
      var n, rest := ns[0], Spawns(ns[1..]);
      var s' := Push(SetCell(s, n, Ready), n);
      assert Did(s, s', [Spawn(n)]) by {
        QueuedOne(Spawn(n), s.syscall.Keys);
        PushOne(s.ready, s.me, n);
        hide WorkSteal.PushBack, PushAll, Queued, StillWaiting;
      }
      WakeDueDid(s', ns[1..]);
      hide Did;
      DidBoth(s, s', WakeDue(s, ns), [Spawn(n)], rest);
    }
  }

  lemma ExpireOneDid(s: Sched, n: Name)
    requires Mapped(s)
    ensures Did(s, ExpireOne(s, n), [Wake(n)])
  {
    QueuedOne(Wake(n), s.syscall.Keys);
    PushOne(s.ready, s.me, n);
    PushNone(s.ready, s.me);
    hide WorkSteal.PushBack, PushAll, Queued, StillWaiting;
    if n !in s.syscall {
      assert s.syscall.Keys - {n} == s.syscall.Keys;
    }
  }

  lemma {:induction false} ExpireDid(s: Sched, ns: seq<Name>)
    requires Mapped(s)
    ensures Did(s, Expire(s, ns), Wakes(ns))
    decreases ns
  {
    if ns == [] {
      DidNothing(s, s);
    } else {
      ExpireOneDid(s, ns[0]);
      hide ExpireOne;
      ExpireDid(ExpireOne(s, ns[0]), ns[1..]);
      hide Did;
      DidBoth(s, ExpireOne(s, ns[0]), Expire(s, ns), [Wake(ns[0])], Wakes(ns[1..]));
    }
  }

  /** `check_ready` queues the due suspended coroutines, and then the due names that wait, each in order. */
  function CheckEffects(s: Sched, r: Readings): seq<Effect> {
    Spawns(Timer.Due(s.suspend, r.cut1)) + Wakes(Timer.Due(s.deadlines, r.cut2))
  }

  lemma CheckReadyDid(s: Sched, r: Readings)
    requires Mapped(s)
    ensures Did(s, CheckReady(s, r.cut1, r.cut2), CheckEffects(s, r))
  {
    var due1, due2 := Timer.Due(s.suspend, r.cut1), Timer.Due(s.deadlines, r.cut2);
    var s0 := s.(suspend := Timer.Later(s.suspend, r.cut1));
    WakeDueDid(s0, due1);
    WakeDueShape(s0, due1);
    var s1 := WakeDue(s0, due1);
    var s2 := s1.(deadlines := Timer.Later(s1.deadlines, r.cut2));
    assert Did(s, s2, Spawns(due1));
    ExpireDid(s2, due2);
    hide Did, WakeDue, Expire, Timer.Due, Timer.Later;
    DidBoth(s, s2, Expire(s2, due2), Spawns(due1), Wakes(due2));
  }

  // ---------- one resume ----------

  /** What a stretch of the body of `n` queues: its own effects, those of the listeners, and perhaps `n` again. */
  function QueuedInStretch(cell: CoroutineState, waiting: set<Name>, n: Name, now1: nat, b: Stretch, now2: nat): seq<Name> {
    var end := CellAtEnd(cell, now1, b);
    if !b.end.Yields? && end != Running then Queued(EffectsIn(b.acts), waiting)
    else
      Queued(EffectsIn(b.acts) + b.reaction, waiting)
      + if b.end.Yields? && end == Running && b.end.stamp <= now2 then [n] else []
  }

  lemma InvMapped(s: Sched, clock: nat, held: multiset<Name>)
    requires MidInv(s, clock, held, [])
    ensures Mapped(s)
  {
  }

  lemma BodyDid(s: Sched, n: Name, now1: nat, b: Stretch)
    requires Mapped(s) && n in s.cells && ToRunning(s.cells[n], now1).Some?
    ensures Did(s, RunBody(s, n, now1, b), EffectsIn(b.acts))
    ensures s.log + [OnResume(n, s.cells[n])] <= RunBody(s, n, now1, b).log
  {
    var s1 := SetCell(Report(s, OnResume(n, s.cells[n])), n, ToRunning(s.cells[n], now1).value);
    ActsDid(s1, n, b.acts);
    hide DoActs, PushAll, Queued, StillWaiting;
  }

  lemma PlaceQueues(s: Sched, n: Name, st: CoroutineState, now: nat)
    requires s.me < |s.ready.locals|
    ensures var r := Place(s, n, st, now);
            && r.me == s.me && r.tick == s.tick && r.log == s.log
            && r.ready == PushAll(s.ready, s.me, if st.Suspended? && st.timestamp <= now then [n] else [])
  {
    PushOne(s.ready, s.me, n);
    PushNone(s.ready, s.me);
    hide PushAll, WorkSteal.PushBack, Timer.Insert;
  }

  lemma ConcludeDid(s: Sched, n: Name, st: CoroutineState)
    requires Mapped(s) && HasEnded(st)
    ensures Did(s, Conclude(s, n, st), []) && Mapped(Conclude(s, n, st))
  {
    DidNothing(s, Conclude(s, n, st));
  }

  /** The end of a stretch from `s2` on, when `acts` have been done since `s`. */
  lemma EndQueues(s: Sched, s2: Sched, acts: seq<Effect>, n: Name, st: CoroutineState, reaction: seq<Effect>, now2: nat)
    requires Did(s, s2, acts) && HasEnded(st)
    ensures s2.me < |s2.ready.locals|
    ensures var r := Place(DoEffects(Conclude(s2, n, st), reaction), n, st, now2);
            && r.me == s.me && r.tick == s.tick && s2.log <= r.log
            && r.ready == PushAll(s.ready, s.me, Queued(acts + reaction, s.syscall.Keys)
                                                 + if st.Suspended? && st.timestamp <= now2 then [n] else [])
  {
    hide PushAll, Queued, StillWaiting, DoEffects, Conclude, Place;
    var s3 := Conclude(s2, n, st);
    ConcludeDid(s2, n, st);
    EffectsDid(s3, reaction);
    var s4 := DoEffects(s3, reaction);
    DidBoth(s, s2, s3, acts, []);
    assert acts + [] == acts;
    DidBoth(s, s3, s4, acts, reaction);
    PlaceQueues(s4, n, st, now2);
    PushAllConcat(s.ready, s.me, Queued(acts + reaction, s.syscall.Keys),
                  if st.Suspended? && st.timestamp <= now2 then [n] else []);
  }

  lemma StretchNames(cell: CoroutineState, waiting: set<Name>, n: Name, now1: nat, b: Stretch, now2: nat)
    requires InBody(CellAtEnd(cell, now1, b))
    ensures var st := AfterBody(CellAtEnd(cell, now1, b), b.end);
            QueuedInStretch(cell, waiting, n, now1, b, now2) ==
            if st.None? then Queued(EffectsIn(b.acts), waiting)
            else Queued(EffectsIn(b.acts) + b.reaction, waiting)
                 + if st.value.Suspended? && st.value.timestamp <= now2 then [n] else []
  {
    hide CellAtEnd, Queued, EffectsIn;
  }

  lemma ResumeIs(s: Sched, n: Name, now1: nat, b: Stretch, now2: nat)
    requires s.me < |s.ready.locals| && n in s.cells && ToRunning(s.cells[n], now1).Some?
    requires n in RunBody(s, n, now1, b).cells
    ensures var s2 := RunBody(s, n, now1, b);
            var st := AfterBody(s2.cells[n], b.end);
            Resume(s, n, now1, b, now2).sched ==
            if st.None? then Drop(s2, n) else Place(DoEffects(Conclude(s2, n, st.value), b.reaction), n, st.value, now2)
  {
    hide RunBody, AfterBody, Drop, Place, Conclude, DoEffects;
  }

  lemma DropQueues(s: Sched, n: Name)
    ensures var r := Drop(s, n); r.me == s.me && r.tick == s.tick && r.log == s.log && r.ready == s.ready
  {
  }

  /** From `s` to `r` coroutine `n` was resumed, and `ns` were queued. */
  ghost predicate Resumed(s: Sched, r: Sched, n: Name, ns: seq<Name>) {
    && n in s.cells && s.me < |s.ready.locals|
    && r.me == s.me && r.tick == s.tick && s.log + [OnResume(n, s.cells[n])] <= r.log
    && r.ready == PushAll(s.ready, s.me, ns)
  }

  lemma BodyEnds(s: Sched, n: Name, now1: nat, b: Stretch, now2: nat)
    requires Mapped(s) && n in s.cells && ToRunning(s.cells[n], now1).Some?
    requires var s2 := RunBody(s, n, now1, b);
             n in s2.cells && s2.cells[n] == CellAtEnd(s.cells[n], now1, b) && InBody(s2.cells[n])
    ensures Resumed(s, Resume(s, n, now1, b, now2).sched, n,
                    QueuedInStretch(s.cells[n], s.syscall.Keys, n, now1, b, now2))
  {
    BodyDid(s, n, now1, b);
    StretchNames(s.cells[n], s.syscall.Keys, n, now1, b, now2);
    ResumeIs(s, n, now1, b, now2);
    hide Mapped, Resume, QueuedInStretch, CellAtEnd, RunBody, AfterBody, Drop, Place, Conclude, DoEffects, EffectsIn,
      Queued, StillWaiting, PushAll, Did;
    var s2 := RunBody(s, n, now1, b);
    var st := AfterBody(s2.cells[n], b.end);
    DidReady(s, s2, EffectsIn(b.acts));
    if st.Some? {
      EndQueues(s, s2, EffectsIn(b.acts), n, st.value, b.reaction, now2);
    } else {
      DropQueues(s2, n);
    }
  }

  lemma ResumeQueues(s: Sched, clock: nat, n: Name, now1: nat, b: Stretch, now2: nat)
    requires MidInv(s, clock, multiset{n}, []) && n in s.cells && Runnable(s.cells[n], clock)
    requires clock <= now1 <= now2 && FreshStretch(s, n, now1, b)
    ensures s.me < |s.ready.locals|
    ensures Resumed(s, Resume(s, n, now1, b, now2).sched, n,
                    QueuedInStretch(s.cells[n], s.syscall.Keys, n, now1, b, now2))
  {
    InvMapped(s, clock, multiset{n});
    hide MidInv, FreshStretch, RunBody, CellAtEnd, Runnable, Resume, QueuedInStretch, Resumed;
    RunBodyKeeps(s, clock, n, now1, b);
    BodyEnds(s, n, now1, b, now2);
  }

  lemma DidReady(s: Sched, r: Sched, es: seq<Effect>)
    requires Did(s, r, es)
    ensures s.me < |s.ready.locals| && r.me == s.me && r.tick == s.tick
    ensures r.ready == PushAll(s.ready, s.me, Queued(es, s.syscall.Keys))
  {
  }

  // ---------- the moves as operations of the queue ----------

  /** What a turn queues before it pops. */
  function QueuedFirst(s: Sched, r: Readings): seq<Name> {
    Queued(CheckEffects(s, r), s.syscall.Keys)
  }

  /** What a turn queues after it has popped. */
  function QueuedThen(s: Sched, r: Readings, b: Stretch): seq<Name>
    requires s.me < |s.ready.locals| && 1 <= s.ready.capacity
  {
    var n, s2 := Chosen(s, r), AtResume(s, r);
    if n.None? || n.value !in s2.cells then [] else
    QueuedInStretch(s2.cells[n.value], StillWaiting(CheckEffects(s, r), s.syscall.Keys), n.value, r.now1, b, r.now2)
  }

  function Pushes(me: nat, ns: seq<Name>): seq<WorkSteal.Op<Name>> {
    if ns == [] then [] else [WorkSteal.LocalPush(me, ns[0])] + Pushes(me, ns[1..])
  }

  function MoveOps(s: Sched, m: T.Move): seq<WorkSteal.Op<Name>>
    requires s.me < |s.ready.locals| && 1 <= s.ready.capacity
  {
    match m
    case MSubmit(n) => Pushes(s.me, [n])
    case MWake(n) => Pushes(s.me, if n in s.syscall then [n] else [])
    case MTurn(r, b) =>
      Pushes(s.me, QueuedFirst(s, r)) + [WorkSteal.LocalPop(s.me, r.start)] + Pushes(s.me, QueuedThen(s, r, b))
  }

  /** The queues of `s` and the tick of its worker, in a system with some history. */
  ghost predicate Tied(s: Sched, sys: WorkSteal.System<Name>) {
    && WorkSteal.Consistent(sys) && sys.queues == s.ready
    && s.me < |sys.queues.locals| && sys.ticks[s.me] == s.tick
  }

  lemma {:induction false} PushRun(sys: WorkSteal.System<Name>, me: nat, ns: seq<Name>)
    requires WorkSteal.Consistent(sys) && me < |sys.queues.locals|
    ensures WorkSteal.LegalRun(sys, Pushes(me, ns))
    ensures var sys' := WorkSteal.Run(sys, Pushes(me, ns));
            && WorkSteal.Consistent(sys') && sys'.queues == PushAll(sys.queues, me, ns) && sys'.ticks == sys.ticks
            && sys'.left == sys.left
    decreases ns
  {
    if ns != [] {
      var op := WorkSteal.LocalPush(me, ns[0]);
      WorkSteal.ApplyConsistent(sys, op);
      assert Pushes(me, ns)[1..] == Pushes(me, ns[1..]);
      var sys' := WorkSteal.Apply(sys, op);
      assert sys'.queues == WorkSteal.PushBack(sys.queues, me, ns[0]) && sys'.ticks == sys.ticks && sys'.left == sys.left;
      hide WorkSteal.Consistent, WorkSteal.Apply, WorkSteal.PushBack;
      PushRun(sys', me, ns[1..]);
    }
  }

  lemma {:induction false} RunConcat(sys: WorkSteal.System<Name>, a: seq<WorkSteal.Op<Name>>, b: seq<WorkSteal.Op<Name>>)
    requires WorkSteal.Consistent(sys) && WorkSteal.LegalRun(sys, a)
    requires WorkSteal.Consistent(WorkSteal.Run(sys, a)) && WorkSteal.LegalRun(WorkSteal.Run(sys, a), b)
    ensures WorkSteal.LegalRun(sys, a + b) && WorkSteal.Run(sys, a + b) == WorkSteal.Run(WorkSteal.Run(sys, a), b)
    decreases a
  {
    if a == [] {
      assert a + b == b;
    } else {
      assert (a + b)[1..] == a[1..] + b && (a + b)[0] == a[0];
      WorkSteal.ApplyConsistent(sys, a[0]);
      hide WorkSteal.Consistent, WorkSteal.Apply, WorkSteal.Legal;
      RunConcat(WorkSteal.Apply(sys, a[0]), a[1..], b);
    }
  }

  // ---------- turns and runs ----------

  /** The log has grown, and between `log` and `log'` the listeners were told that `n` is resumed. */
  ghost predicate Reported(log: seq<Event>, log': seq<Event>, n: Name) {
    |log| <= |log'| && exists i | |log| <= i < |log'| :: log'[i].OnResume? && log'[i].name == n
  }

  /** The pop of a turn: from the ready queue after `check_ready`. */
  function PopIn(s: Sched, r: Readings): WorkSteal.Popped<Name>
    requires s.me < |s.ready.locals| && 1 <= s.ready.capacity
  {
    CheckReadyShape(s, r.cut1, r.cut2);
    WorkSteal.PopFront(CheckReady(s, r.cut1, r.cut2).ready, s.me, WorkSteal.NextTick(s.tick), r.start)
  }

  lemma PopPoint(s: Sched, r: Readings)
    requires Mapped(s) && 1 <= s.ready.capacity
    ensures CheckReady(s, r.cut1, r.cut2).ready == PushAll(s.ready, s.me, QueuedFirst(s, r))
    ensures var s2 := AtResume(s, r);
            && Chosen(s, r) == PopIn(s, r).item && s2.ready == PopIn(s, r).queues
            && s2.tick == WorkSteal.NextTick(s.tick) && s2.me == s.me && s2.log == s.log
            && s2.syscall.Keys == StillWaiting(CheckEffects(s, r), s.syscall.Keys)
  {
    CheckReadyDid(s, r);
    CheckReadyShape(s, r.cut1, r.cut2);
    hide CheckReady, CheckEffects, PushAll, Queued, StillWaiting, WorkSteal.PopFront, WorkSteal.NextTick;
  }

  /** From `s` to `s'` the worker pushes `before`, pops once, and pushes `after`; who is popped is resumed. */
  ghost predicate Around(s: Sched, s': Sched, before: seq<Name>, start: nat, after: seq<Name>) {
    && s.me < |s.ready.locals| && 1 <= s.ready.capacity
    && var p := WorkSteal.PopFront(PushAll(s.ready, s.me, before), s.me, WorkSteal.NextTick(s.tick), start);
       && s.me < |p.queues.locals| && s'.me == s.me && s'.tick == WorkSteal.NextTick(s.tick)
       && s'.ready == PushAll(p.queues, s.me, after)
       && s.log <= s'.log && (p.item.Some? ==> Reported(s.log, s'.log, p.item.value))
  }

  lemma ResumedAround(s: Sched, r: Readings, n: Name, s': Sched, after: seq<Name>)
    requires Mapped(s) && 1 <= s.ready.capacity && Chosen(s, r) == Some(n) && Resumed(AtResume(s, r), s', n, after)
    ensures Around(s, s', QueuedFirst(s, r), r.start, after)
  {
    PopPoint(s, r);
    hide CheckReady, AtResume, Chosen, QueuedFirst, WorkSteal.PopFront, PushAll, WorkSteal.NextTick;
    assert s'.log[|s.log|] == OnResume(n, AtResume(s, r).cells[n]);
  }

  lemma IdleAround(s: Sched, r: Readings)
    requires Mapped(s) && 1 <= s.ready.capacity && Chosen(s, r).None?
    ensures Around(s, AtResume(s, r), QueuedFirst(s, r), r.start, [])
  {
    PopPoint(s, r);
    CheckReadyShape(s, r.cut1, r.cut2);
    WorkSteal.SharedShrinks(CheckReady(s, r.cut1, r.cut2).ready, s.me, WorkSteal.NextTick(s.tick), r.start);
    PushNone(PopIn(s, r).queues, s.me);
    hide CheckReady, AtResume, Chosen, QueuedFirst, WorkSteal.PopFront, PushAll, WorkSteal.NextTick;
  }

  /** What one turn does to the ready queue. */
  lemma TurnQueues(s: Sched, clock: nat, r: Readings, b: Stretch)
    requires Inv(s, clock) && Timely(s, clock, r) && FreshTurn(s, r, b)
    ensures s.me < |s.ready.locals| && 1 <= s.ready.capacity
    ensures Around(s, Turn(s, r, b).sched, QueuedFirst(s, r), r.start, QueuedThen(s, r, b))
  {
    InvMapped(s, clock, multiset{});
    assert Shape(s);
    ResumePoint(s, clock, r);
    var s2, next := AtResume(s, r), Chosen(s, r);
    PopPoint(s, r);
    Impl.TurnIs(s, r, b);
    hide MidInv, Turn, AtResume, Chosen, CheckReady, FreshStretch, Resume, Mapped, QueuedFirst, QueuedInStretch,
      CheckEffects, Around, Runnable, Resumed;
    if next.None? {
      IdleAround(s, r);
    } else {
      ResumeQueues(s2, r.cut2, next.value, r.now1, b, r.now2);
      ResumedAround(s, r, next.value, Turn(s, r, b).sched, QueuedThen(s, r, b));
    }
  }

  /** What left the shared queue in a pop is what the pop returned. */
  lemma LeftByPop(sys: WorkSteal.System<Name>, me: nat, start: nat)
    requires WorkSteal.Consistent(sys) && me < |sys.queues.locals|
    ensures var item := WorkStealOrder.PopOf(sys, me, start).item;
            var left := WorkSteal.Apply(sys, WorkSteal.LocalPop(me, start)).left;
            left == sys.left || (item.Some? && left == sys.left + [item.value])
  {
    hide WorkSteal.Victim, WorkSteal.StealCount, WorkSteal.Content, WorkSteal.PopCame, WorkSteal.PopWent;
  }

  /** One pop between pushes, as three parts of a run. */
  lemma PushPopPush(sys: WorkSteal.System<Name>, me: nat, before: seq<Name>, start: nat, after: seq<Name>)
    requires WorkSteal.Consistent(sys) && me < |sys.queues.locals|
    ensures var ops := Pushes(me, before) + [WorkSteal.LocalPop(me, start)] + Pushes(me, after);
            && WorkSteal.LegalRun(sys, Pushes(me, before)) && WorkSteal.LegalRun(sys, ops)
            && var sys1, sys' := WorkSteal.Run(sys, Pushes(me, before)), WorkSteal.Run(sys, ops);
               && WorkSteal.Consistent(sys1) && sys1.queues == PushAll(sys.queues, me, before) && sys1.ticks == sys.ticks
               && WorkSteal.Consistent(sys') && |sys'.queues.locals| == |sys.queues.locals|
               && var p := WorkStealOrder.PopOf(sys1, me, start);
                  && |p.queues.locals| == |sys.queues.locals| && sys'.queues == PushAll(p.queues, me, after)
                  && sys'.ticks[me] == WorkSteal.NextTick(sys.ticks[me])
                  && (sys'.left == sys.left || (p.item.Some? && sys'.left == sys.left + [p.item.value]))
                  && (WorkSteal.ApplyConsistent(sys1, WorkSteal.LocalPop(me, start));
                      var sys2 := WorkSteal.Apply(sys1, WorkSteal.LocalPop(me, start));
                      WorkSteal.LegalRun(sys2, Pushes(me, after)) && sys' == WorkSteal.Run(sys2, Pushes(me, after)))
  {
    PushRun(sys, me, before);
    var sys1, op := WorkSteal.Run(sys, Pushes(me, before)), WorkSteal.LocalPop(me, start);
    WorkSteal.ApplyConsistent(sys1, op);
    WorkSteal.SharedShrinks(sys1.queues, me, WorkSteal.NextTick(sys1.ticks[me]), start);
    LeftByPop(sys1, me, start);
    var sys2 := WorkSteal.Apply(sys1, op);
    assert sys2.queues == WorkStealOrder.PopOf(sys1, me, start).queues;
    assert sys2.ticks[me] == WorkSteal.NextTick(sys.ticks[me]);
    PushRun(sys2, me, after);
    RunOne(sys1, op);
    hide WorkSteal.Consistent, WorkSteal.Apply, PushAll, WorkStealOrder.PopOf, Pushes;
    RunConcat(sys, Pushes(me, before), [op]);
    RunConcat(sys, Pushes(me, before) + [op], Pushes(me, after));
  }

  lemma RunOne(sys: WorkSteal.System<Name>, op: WorkSteal.Op<Name>)
    requires WorkSteal.Consistent(sys) && WorkSteal.Legal(sys, op)
    ensures WorkSteal.LegalRun(sys, [op]) && WorkSteal.Run(sys, [op]) == WorkSteal.Apply(sys, op)
    ensures WorkSteal.Consistent(WorkSteal.Apply(sys, op))
  {
    WorkSteal.ApplyConsistent(sys, op);
    assert [op][1..] == [];
    hide WorkSteal.Apply, WorkSteal.Consistent;
    assert WorkSteal.Run(WorkSteal.Apply(sys, op), []) == WorkSteal.Apply(sys, op);
  }

  /** Whatever has left the shared queue meanwhile was reported as resumed meanwhile. */
  ghost predicate Told(left: seq<Name>, left': seq<Name>, log: seq<Event>, log': seq<Event>) {
    |left| <= |left'| && forall k | |left| <= k < |left'| :: Reported(log, log', left'[k])
  }

  lemma AroundRun(s: Sched, s': Sched, before: seq<Name>, start: nat, after: seq<Name>, sys: WorkSteal.System<Name>)
    requires Around(s, s', before, start, after) && Tied(s, sys)
    ensures var ops := Pushes(s.me, before) + [WorkSteal.LocalPop(s.me, start)] + Pushes(s.me, after);
            && WorkSteal.LegalRun(sys, ops) && Tied(s', WorkSteal.Run(sys, ops))
            && s'.me == s.me && s.log <= s'.log && Told(sys.left, WorkSteal.Run(sys, ops).left, s.log, s'.log)
  {
    hide PushAll, Reported, WorkSteal.Consistent, WorkSteal.PopFront, WorkSteal.NextTick, WorkSteal.LegalRun, WorkSteal.Run, Pushes;
    PushPopPush(sys, s.me, before, start, after);
  }

  lemma DidRun(s: Sched, s': Sched, es: seq<Effect>, sys: WorkSteal.System<Name>)
    requires Did(s, s', es) && Tied(s, sys)
    ensures var ops := Pushes(s.me, Queued(es, s.syscall.Keys));
            && WorkSteal.LegalRun(sys, ops) && Tied(s', WorkSteal.Run(sys, ops))
            && s'.me == s.me && s.log <= s'.log && Told(sys.left, WorkSteal.Run(sys, ops).left, s.log, s'.log)
  {
    PushRun(sys, s.me, Queued(es, s.syscall.Keys));
    hide PushAll, Queued, Pushes, WorkSteal.Consistent, WorkSteal.LegalRun, WorkSteal.Run, StillWaiting, Mapped, Reported;
  }

  /** A move of the scheduler is a run of the queue. */
  lemma MoveRun(s: Sched, clock: nat, m: T.Move, sys: WorkSteal.System<Name>)
    requires Inv(s, clock) && Shape(s) && T.Legal(s, clock, m) && Tied(s, sys)
    ensures var s', ops := T.Apply(s, m), MoveOps(s, m);
            && WorkSteal.LegalRun(sys, ops) && Tied(s', WorkSteal.Run(sys, ops))
            && s'.me == s.me && s.log <= s'.log && Told(sys.left, WorkSteal.Run(sys, ops).left, s.log, s'.log)
  {
    InvMapped(s, clock, multiset{});
    hide MidInv, Tied, Told, WorkSteal.LegalRun, WorkSteal.Run, Pushes, Turn, DoEffect, FreshTurn, QueuedFirst, QueuedThen;
    match m
    case MSubmit(n) =>
      EffectDid(s, Spawn(n));
      QueuedOne(Spawn(n), s.syscall.Keys);
      DidRun(s, DoEffect(s, Spawn(n)), [Spawn(n)], sys);
    case MWake(n) =>
      EffectDid(s, Wake(n));
      QueuedOne(Wake(n), s.syscall.Keys);
      DidRun(s, DoEffect(s, Wake(n)), [Wake(n)], sys);
    case MTurn(r, b) =>
      TurnQueues(s, clock, r, b);
      AroundRun(s, Turn(s, r, b).sched, QueuedFirst(s, r), r.start, QueuedThen(s, r, b), sys);
  }

  ghost function RunOps(s: Sched, clock: nat, ms: seq<T.Move>): seq<WorkSteal.Op<Name>>
    requires Inv(s, clock) && T.LegalRun(s, clock, ms)
    decreases |ms|
  {
    if ms == [] then [] else
    T.MoveKeeps(s, clock, ms[0]);
    MoveOps(s, ms[0]) + RunOps(T.Apply(s, ms[0]), T.ClockAfter(clock, ms[0]), ms[1..])
  }

  lemma ToldBoth(a: seq<Name>, b: seq<Name>, c: seq<Name>, x: seq<Event>, y: seq<Event>, z: seq<Event>)
    requires Told(a, b, x, y) && Told(b, c, y, z) && x <= y <= z && b <= c
    ensures Told(a, c, x, z)
  {
    forall k | |a| <= k < |c| ensures Reported(x, z, c[k]) {
      if k < |b| {
        assert Reported(x, y, b[k]) && c[k] == b[k];
        var i :| |x| <= i < |y| && y[i].OnResume? && y[i].name == b[k];
        assert z[i] == y[i];
      } else {
        assert Reported(y, z, c[k]);
      }
    }
  }

  /**
   * Every run of the scheduler is a run of the work-stealing queue, in which its worker pushes what the
   * scheduler makes ready and pops once a turn; who leaves the shared queue is resumed.
   */
  lemma {:induction false} RunIsQueueRun(s: Sched, clock: nat, ms: seq<T.Move>, sys: WorkSteal.System<Name>)
    requires Inv(s, clock) && T.LegalRun(s, clock, ms) && Tied(s, sys)
    ensures var s', ops := T.Run(s, clock, ms).0, RunOps(s, clock, ms);
            && WorkSteal.LegalRun(sys, ops) && Tied(s', WorkSteal.Run(sys, ops))
            && s'.me == s.me && s.log <= s'.log && Told(sys.left, WorkSteal.Run(sys, ops).left, s.log, s'.log)
    decreases |ms|
  {
    assert Shape(s);
    hide MidInv, T.Legal, T.Apply, MoveOps, WorkSteal.LegalRun, WorkSteal.Run, Told, WorkSteal.Consistent;
    if ms == [] {
      DidNothingRun(s, sys);
    } else {
      var m := ms[0];
      T.MoveKeeps(s, clock, m);
      MoveRun(s, clock, m, sys);
      var s1, c1, ops := T.Apply(s, m), T.ClockAfter(clock, m), MoveOps(s, m);
      var sys1 := WorkSteal.Run(sys, ops);
      RunIsQueueRun(s1, c1, ms[1..], sys1);
      var rest := RunOps(s1, c1, ms[1..]);
      RunConcat(sys, ops, rest);
      WorkSteal.RunConserves(sys1, rest);
      ToldBoth(sys.left, sys1.left, WorkSteal.Run(sys1, rest).left, s.log, s1.log, T.Run(s, clock, ms).0.log);
    }
  }

  lemma DidNothingRun(s: Sched, sys: WorkSteal.System<Name>)
    requires Tied(s, sys)
    ensures WorkSteal.LegalRun(sys, []) && WorkSteal.Run(sys, []) == sys && Told(sys.left, sys.left, s.log, s.log)
  {
  }

  // ---------- bounded wait ----------

  function Turns(ms: seq<T.Move>): nat {
    if ms == [] then 0 else (if ms[0].MTurn? then 1 else 0) + Turns(ms[1..])
  }

  lemma {:induction false} VisitsConcat(a: seq<WorkSteal.Op<Name>>, b: seq<WorkSteal.Op<Name>>, me: nat)
    ensures WorkSteal.Visits(a + b, me) == WorkSteal.Visits(a, me) + WorkSteal.Visits(b, me)
    decreases a
  {
    if a == [] {
      assert a + b == b;
    } else {
      assert (a + b)[1..] == a[1..] + b && (a + b)[0] == a[0];
      VisitsConcat(a[1..], b, me);
    }
  }

  lemma {:induction false} PushesVisitNothing(me: nat, ns: seq<Name>)
    ensures WorkSteal.Visits(Pushes(me, ns), me) == 0
    decreases ns
  {
    if ns != [] {
      assert Pushes(me, ns)[1..] == Pushes(me, ns[1..]);
      PushesVisitNothing(me, ns[1..]);
    }
  }

  lemma MoveVisits(s: Sched, m: T.Move)
    requires s.me < |s.ready.locals| && 1 <= s.ready.capacity
    ensures WorkSteal.Visits(MoveOps(s, m), s.me) == if m.MTurn? then 1 else 0
  {
    var me := s.me;
    hide Pushes, QueuedFirst, QueuedThen;
    if m.MTurn? {
      var before, pop, after := Pushes(me, QueuedFirst(s, m.readings)), [WorkSteal.LocalPop(me, m.readings.start)],
                                Pushes(me, QueuedThen(s, m.readings, m.stretch));
      PushesVisitNothing(me, QueuedFirst(s, m.readings));
      PushesVisitNothing(me, QueuedThen(s, m.readings, m.stretch));
      VisitsConcat(before, pop, me);
      VisitsConcat(before + pop, after, me);
      assert pop[1..] == [];
      assert WorkSteal.Visits(pop, me) == 1 + WorkSteal.Visits(pop[1..], me);
    } else {
      PushesVisitNothing(me, if m.MSubmit? || m.name in s.syscall then [m.name] else []);
    }
  }

  lemma {:induction false} RunVisits(s: Sched, clock: nat, ms: seq<T.Move>, sys: WorkSteal.System<Name>)
    requires Inv(s, clock) && T.LegalRun(s, clock, ms) && Tied(s, sys)
    ensures WorkSteal.Visits(RunOps(s, clock, ms), s.me) == Turns(ms)
    decreases |ms|
  {
    assert Shape(s);
    hide MidInv, T.Legal, T.Apply, MoveOps, WorkSteal.LegalRun, WorkSteal.Run, Told, WorkSteal.Consistent;
    if ms != [] {
      T.MoveKeeps(s, clock, ms[0]);
      MoveRun(s, clock, ms[0], sys);
      MoveVisits(s, ms[0]);
      var s1, c1 := T.Apply(s, ms[0]), T.ClockAfter(clock, ms[0]);
      RunVisits(s1, c1, ms[1..], WorkSteal.Run(sys, MoveOps(s, ms[0])));
      VisitsConcat(MoveOps(s, ms[0]), RunOps(s1, c1, ms[1..]), s.me);
    }
  }

  /** The queues of `s` with a history that begins now. */
  ghost function Now(s: Sched): WorkSteal.System<Name>
    requires Shape(s)
  {
    var size := |s.ready.locals|;
    WorkSteal.System(s.ready, seq(size, _ => s.tick), WorkSteal.Content(s.ready), multiset{},
                     s.ready.shared, [], s.ready.locals, seq(size, _ => []))
  }

  lemma NowTied(s: Sched)
    requires Shape(s)
    ensures Tied(s, Now(s)) && Now(s).left == []
  {
    hide WorkSteal.Content;
  }

  /**
   * No starvation: a coroutine at depth `k` of the shared queue is resumed within `61 * (k + 1)` turns,
   * whatever is submitted, woken or suspended meanwhile.
   */
  lemma NoStarvation(s: Sched, clock: nat, ms: seq<T.Move>, k: nat)
    requires Inv(s, clock) && T.LegalRun(s, clock, ms)
    requires k < |s.ready.shared| && Turns(ms) >= 61 * (k + 1)
    ensures Reported(s.log, T.Run(s, clock, ms).0.log, s.ready.shared[k])
  {
    assert Shape(s);
    hide MidInv, T.LegalRun, T.Run, WorkSteal.LegalRun, WorkSteal.Run, Reported;
    var sys := Now(s);
    NowTied(s);
    hide WorkSteal.Consistent, Now;
    RunIsQueueRun(s, clock, ms, sys);
    RunVisits(s, clock, ms, sys);
    WorkSteal.DepthBoundsWait(sys, RunOps(s, clock, ms), s.me, k);
  }

  // ---------- order ----------

  /** The system at the pop of a turn. */
  ghost function AtPop(s: Sched, r: Readings, sys: WorkSteal.System<Name>): WorkSteal.System<Name>
    requires Tied(s, sys)
  {
    PushRun(sys, s.me, QueuedFirst(s, r));
    WorkSteal.Run(sys, Pushes(s.me, QueuedFirst(s, r)))
  }

  lemma AtPopIs(s: Sched, r: Readings, sys: WorkSteal.System<Name>)
    requires Tied(s, sys) && Mapped(s) && 1 <= s.ready.capacity
    ensures WorkSteal.Consistent(AtPop(s, r, sys)) && s.me < |AtPop(s, r, sys).queues.locals|
    ensures AtPop(s, r, sys).queues == CheckReady(s, r.cut1, r.cut2).ready
    ensures Chosen(s, r) == WorkStealOrder.PopOf(AtPop(s, r, sys), s.me, r.start).item
  {
    PushRun(sys, s.me, QueuedFirst(s, r));
    PopPoint(s, r);
    CheckReadyShape(s, r.cut1, r.cut2);
    hide CheckReady, QueuedFirst, PushAll, Chosen, AtResume, WorkSteal.PopFront, WorkSteal.LegalRun, WorkSteal.Run, WorkSteal.Content;
  }

  /** The coroutine that this turn resumes comes from the own queue. */
  ghost predicate OwnTurn(s: Sched, r: Readings)
    requires s.me < |s.ready.locals|
  {
    CheckReadyShape(s, r.cut1, r.cut2);
    var q := CheckReady(s, r.cut1, r.cut2).ready;
    q.locals[s.me] != [] && (WorkSteal.NextTick(s.tick) % 61 != 0 || q.shared == [])
  }

  lemma OwnTurnPops(s: Sched, r: Readings, sys: WorkSteal.System<Name>)
    requires Tied(s, sys) && Mapped(s) && 1 <= s.ready.capacity && OwnTurn(s, r)
    ensures var a := AtPop(s, r, sys);
            WorkSteal.Consistent(a) && s.me < |a.queues.locals| && WorkStealOrder.PopsOwn(a, s.me)
  {
    AtPopIs(s, r, sys);
    PushRun(sys, s.me, QueuedFirst(s, r));
    hide CheckReady, QueuedFirst, PushAll, Chosen, WorkSteal.PopFront, WorkSteal.LegalRun, WorkSteal.Run, WorkSteal.Content;
  }

  /** The first turn of a run, from its pop on. */
  lemma FromPop(s: Sched, clock: nat, r: Readings, b: Stretch, ms: seq<T.Move>, sys: WorkSteal.System<Name>, more: seq<Name>)
    returns (ops: seq<WorkSteal.Op<Name>>)
    requires Inv(s, clock) && T.LegalRun(s, clock, [T.MTurn(r, b)] + ms) && Tied(s, sys)
    ensures var run := RunOps(s, clock, [T.MTurn(r, b)] + ms);
            && WorkSteal.LegalRun(sys, run) && WorkSteal.Consistent(WorkSteal.Run(sys, run))
            && WorkSteal.LegalRun(WorkSteal.Run(sys, run), Pushes(s.me, more))
            && var a := AtPop(s, r, sys);
               && WorkSteal.Consistent(a) && s.me < |a.queues.locals|
               && var a' := WorkSteal.Apply(a, WorkSteal.LocalPop(s.me, r.start));
                  && WorkSteal.Consistent(a') && WorkSteal.LegalRun(a', ops)
                  && WorkSteal.Run(a', ops) == WorkSteal.Run(WorkSteal.Run(sys, run), Pushes(s.me, more))
  {
    assert Shape(s);
    var turn := T.MTurn(r, b);
    assert ([turn] + ms)[0] == turn && ([turn] + ms)[1..] == ms;
    T.MoveKeeps(s, clock, turn);
    var s1, c1, me := T.Apply(s, turn), T.ClockAfter(clock, turn), s.me;
    MoveRun(s, clock, turn, sys);
    var sys1 := WorkSteal.Run(sys, MoveOps(s, turn));
    PushPopPush(sys, me, QueuedFirst(s, r), r.start, QueuedThen(s, r, b));
    var a' := WorkSteal.Apply(AtPop(s, r, sys), WorkSteal.LocalPop(me, r.start));
    assert WorkSteal.Consistent(a') by {
      WorkSteal.ApplyConsistent(AtPop(s, r, sys), WorkSteal.LocalPop(me, r.start));
    }
    hide MidInv, T.Legal, T.Apply, WorkSteal.LegalRun, WorkSteal.Run, Told, QueuedFirst, QueuedThen, WorkSteal.Consistent,
      Pushes, WorkSteal.Apply, PushAll, WorkStealOrder.PopOf;
    RunIsQueueRun(s1, c1, ms, sys1);
    var then1, rest := Pushes(me, QueuedThen(s, r, b)), RunOps(s1, c1, ms);
    RunConcat(sys, MoveOps(s, turn), rest);
    var sys' := WorkSteal.Run(sys1, rest);
    PushRun(sys', me, more);
    RunConcat(a', then1, rest);
    RunConcat(a', then1 + rest, Pushes(me, more));
    ops := then1 + rest + Pushes(me, more);
  }

  /**
   * Resumed in order: if two turns of a run take their coroutines from the own queue, then these are two
   * arrivals in that queue, the earlier of which is resumed first, whatever happens between the turns.
   */
  lemma ResumedInOrder(s: Sched, clock: nat, r: Readings, b: Stretch, ms: seq<T.Move>, r': Readings,
                       sys: WorkSteal.System<Name>)
    requires Inv(s, clock) && T.LegalRun(s, clock, [T.MTurn(r, b)] + ms) && Tied(s, sys)
    requires var s' := T.Run(s, clock, [T.MTurn(r, b)] + ms).0;
             Shape(s) && Shape(s') && OwnTurn(s, r) && OwnTurn(s', r')
    ensures var s', run := T.Run(s, clock, [T.MTurn(r, b)] + ms).0, RunOps(s, clock, [T.MTurn(r, b)] + ms);
            && WorkSteal.LegalRun(sys, run) && Tied(s', WorkSteal.Run(sys, run))
            && var first, second := AtPop(s, r, sys), AtPop(s', r', WorkSteal.Run(sys, run));
               && s.me < |first.went| && s.me < |second.went| == |second.came|
               && var came, i, j := second.came[s.me], |first.went[s.me]|, |second.went[s.me]|;
                  i < j < |came| && Chosen(s, r) == Some(came[i]) && Chosen(s', r') == Some(came[j])
  {
    var ms' := [T.MTurn(r, b)] + ms;
    T.RunKeeps(s, clock, ms');
    var (s', clock') := T.Run(s, clock, ms');
    InvMapped(s, clock, multiset{});
    InvMapped(s', clock', multiset{});
    RunIsQueueRun(s, clock, ms', sys);
    var sys' := WorkSteal.Run(sys, RunOps(s, clock, ms'));
    var ops := FromPop(s, clock, r, b, ms, sys, QueuedFirst(s', r'));
    OwnTurnPops(s, r, sys);
    OwnTurnPops(s', r', sys');
    AtPopIs(s, r, sys);
    AtPopIs(s', r', sys');
    hide MidInv, T.LegalRun, T.Run, WorkSteal.LegalRun, WorkSteal.Run, Told, QueuedFirst, WorkSteal.Apply, WorkSteal.Content,
      WorkStealOrder.PopsOwn, WorkStealOrder.PopOf, OwnTurn, CheckReady, Chosen, Mapped;
    WorkStealOrder.OwnPopsInOrder(AtPop(s, r, sys), s.me, r.start, ops, r'.start);
  }
}
