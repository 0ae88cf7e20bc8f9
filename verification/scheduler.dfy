// The mutable scheduler: the loops of `check_ready` and `try_timeout_schedule`, refining the model.
module Scheduler {
  import opened Constants
  import opened StateMachine
  import opened SchedulerModel
  import opened SchedulerInvariant
  import opened SchedulerRuns
  import T = SchedulerTheorems
  import Timer
  import WorkSteal

  // ---------- how a partially consumed timer list relates to the original ----------

  /** `done` was taken from the front of `orig`, and `cur` is left, as seen from any cut at or after `clock`. */
  ghost predicate Progress(orig: Timer.Entries<Name>, cur: Timer.Entries<Name>, done: seq<Name>, clock: nat) {
    forall c: nat | clock <= c ::
      Timer.Due(orig, c) == done + Timer.Due(cur, c) && Timer.Later(orig, c) == Timer.Later(cur, c)
  }

  lemma ProgressStart(m: Timer.Entries<Name>, clock: nat)
    ensures Progress(m, m, [], clock)
  {
  }

  lemma ProgressStep(orig: Timer.Entries<Name>, cur: Timer.Entries<Name>, done: seq<Name>, clock: nat)
    requires Progress(orig, cur, done, clock) && cur != map[] && Timer.MinKey(cur.Keys) <= clock
    ensures var k := Timer.MinKey(cur.Keys);
            Progress(orig, cur - {k}, done + cur[k].inner, clock)
  {
    var k := Timer.MinKey(cur.Keys);
    forall c: nat | clock <= c
      ensures Timer.Due(orig, c) == done + cur[k].inner + Timer.Due(cur - {k}, c)
      ensures Timer.Later(orig, c) == Timer.Later(cur - {k}, c)
    {
      assert Timer.Due(orig, c) == done + Timer.Due(cur, c);
      assert Timer.Due(cur, c) == cur[k].inner + Timer.Due(cur - {k}, c);
      assert Timer.Later(cur, c) == Timer.Later(cur - {k}, c);
    }
  }

  lemma ProgressEnd(orig: Timer.Entries<Name>, cur: Timer.Entries<Name>, done: seq<Name>, clock: nat)
    requires Progress(orig, cur, done, clock)
    requires cur == map[] || clock < Timer.MinKey(cur.Keys)
    ensures done == Timer.Due(orig, clock) && cur == Timer.Later(orig, clock)
  {
    assert Timer.Due(orig, clock) == done + Timer.Due(cur, clock);
    assert Timer.Later(cur, clock) == cur;
  }

  /** The first entry alone: it is what is due at its own key. */
  lemma FirstEntry(m: Timer.Entries<Name>)
    requires m != map[]
    ensures var k := Timer.MinKey(m.Keys);
            Timer.Due(m, k) == m[k].inner && Timer.Later(m, k) == m - {k}
  {
    var k := Timer.MinKey(m.Keys);
    var rest := m - {k};
    if rest != map[] {
      assert Timer.MinKey(rest.Keys) in m.Keys && Timer.MinKey(rest.Keys) != k;
    }
    assert Timer.Due(rest, k) == [];
    assert Timer.Later(m, k) == rest by {
      hide Timer.Due;
    }
  }

  lemma {:induction false} WakeDueSnoc(s: Sched, ns: seq<Name>, n: Name)
    requires s.me < |s.ready.locals|
    ensures WakeDue(s, ns).me < |WakeDue(s, ns).ready.locals|
    ensures WakeDue(s, ns + [n]) == Push(SetCell(WakeDue(s, ns), n, Ready), n)
    decreases |ns|
  {
    WakeDueShape(s, ns);
    if ns == [] {
      assert ns + [n] == [n];
      assert WakeDue(s, [n]) == WakeDue(Push(SetCell(s, n, Ready), n), []);
    } else {
      assert (ns + [n])[1..] == ns[1..] + [n];
      WakeDueSnoc(Push(SetCell(s, ns[0], Ready), ns[0]), ns[1..], n);
    }
  }

  lemma {:induction false} WakeDueRebase(s: Sched, ns: seq<Name>, m: Timer.Entries<Name>)
    requires s.me < |s.ready.locals|
    ensures WakeDue(s, ns).(suspend := m) == WakeDue(s.(suspend := m), ns)
    decreases |ns|
  {
    if ns != [] {
      WakeDueRebase(Push(SetCell(s, ns[0], Ready), ns[0]), ns[1..], m);
    }
  }

  lemma {:induction false} ExpireSnoc(s: Sched, ns: seq<Name>, n: Name)
    requires s.me < |s.ready.locals|
    ensures Expire(s, ns + [n]) == ExpireOne(Expire(s, ns), n)
    decreases |ns|
  {
    if ns == [] {
      assert ns + [n] == [n];
      assert Expire(s, [n]) == Expire(ExpireOne(s, n), []);
    } else {
      assert (ns + [n])[1..] == ns[1..] + [n];
      ExpireSnoc(ExpireOne(s, ns[0]), ns[1..], n);
    }
  }

  lemma {:induction false} ExpireRebase(s: Sched, ns: seq<Name>, m: Timer.Entries<Name>)
    requires s.me < |s.ready.locals|
    ensures Expire(s, ns).(deadlines := m) == Expire(s.(deadlines := m), ns)
    decreases |ns|
  {
    if ns != [] {
      ExpireRebase(ExpireOne(s, ns[0]), ns[1..], m);
    }
  }

  lemma WakeDueNothing(s: Sched)
    requires s.me < |s.ready.locals|
    ensures WakeDue(s, []) == s
  {
  }

  lemma {:induction false} WakeDueAppend(s: Sched, a: seq<Name>, b: seq<Name>)
    requires s.me < |s.ready.locals|
    ensures WakeDue(s, a).me < |WakeDue(s, a).ready.locals|
    ensures WakeDue(s, a + b) == WakeDue(WakeDue(s, a), b)
    decreases |a|
  {
    WakeDueShape(s, a);
    if a == [] {
      assert a + b == b;
    } else {
      assert (a + b)[1..] == a[1..] + b;
      WakeDueAppend(Push(SetCell(s, a[0], Ready), a[0]), a[1..], b);
    }
  }

  lemma {:induction false} ExpireAppend(s: Sched, a: seq<Name>, b: seq<Name>)
    requires s.me < |s.ready.locals|
    ensures Expire(s, a + b) == Expire(Expire(s, a), b)
    decreases |a|
  {
    if a == [] {
      assert a + b == b;
    } else {
      assert (a + b)[1..] == a[1..] + b;
      ExpireAppend(ExpireOne(s, a[0]), a[1..], b);
    }
  }

  lemma ProgressClock(orig: Timer.Entries<Name>, cur: Timer.Entries<Name>, done: seq<Name>, c0: nat, c1: nat)
    requires Progress(orig, cur, done, c0) && c0 <= c1
    ensures Progress(orig, cur, done, c1)
  {
  }

  lemma ExpireOneIs(s: Sched, n: Name)
    requires s.me < |s.ready.locals|
    requires n in s.syscall ==> s.syscall[n] == n && n in s.cells
    ensures n !in s.syscall ==> ExpireOne(s, n) == s
    ensures n in s.syscall ==>
              ExpireOne(s, n) == s.(syscall := s.syscall - {n}, cells := s.cells[n := ExpiredCell(s.cells[n])],
                                    ready := WorkSteal.PushBack(s.ready, s.me, n))
  {
  }

  // ---------- fresh names ----------

  function SpawnedBy(es: seq<Effect>): seq<Name> {
    if es == [] then [] else (if es[0].Spawn? then [es[0].name] else []) + SpawnedBy(es[1..])
  }

  function EffectsOf(acts: seq<Act>): seq<Effect> {
    if acts == [] then [] else (if acts[0].Do? then [acts[0].effect] else []) + EffectsOf(acts[1..])
  }

  /** All names that a stretch hands out. */
  function NamesOf(b: Stretch): seq<Name> {
    SpawnedBy(EffectsOf(b.acts) + b.reaction)
  }

  ghost function NewNames(b: Stretch): set<Name> {
    set x | x in NamesOf(b)
  }

  /** The UUIDs handed out are distinct and unused. */
  ghost predicate Unused(names: seq<Name>, used: set<Name>) {
    && (forall i, j | 0 <= i < j < |names| :: names[i] != names[j])
    && (forall n | n in names :: n !in used)
  }

  lemma UnusedStep(n: Name, names: seq<Name>, used: set<Name>)
    requires Unused([n] + names, used)
    ensures n !in used && Unused(names, used + {n})
  {
    var all := [n] + names;
    assert all[0] == n;
    forall i | 0 <= i < |names| ensures names[i] != n && names[i] !in used {
      assert all[i + 1] == names[i];
    }
    forall i, j | 0 <= i < j < |names| ensures names[i] != names[j] {
      assert all[i + 1] == names[i] && all[j + 1] == names[j];
    }
  }

  lemma EffectKeys(s: Sched, e: Effect)
    requires s.me < |s.ready.locals|
    ensures DoEffect(s, e).cells.Keys == s.cells.Keys + if e.Spawn? then {e.name} else {}
  {
  }

  lemma {:induction false} SpawnedByAppend(a: seq<Effect>, b: seq<Effect>)
    ensures SpawnedBy(a + b) == SpawnedBy(a) + SpawnedBy(b)
  {
    if a == [] {
      assert a + b == b;
    } else {
      SpawnedByAppend(a[1..], b);
      assert (a + b)[0] == a[0] && (a + b)[1..] == a[1..] + b;
      var head := if a[0].Spawn? then [a[0].name] else [];
      assert head + (SpawnedBy(a[1..]) + SpawnedBy(b)) == (head + SpawnedBy(a[1..])) + SpawnedBy(b);
    }
  }

  lemma {:induction false} UnusedIsFresh(s: Sched, es: seq<Effect>)
    requires s.me < |s.ready.locals| && Unused(SpawnedBy(es), s.cells.Keys)
    ensures FreshEffects(s, es)
    decreases |es|
  {
    if es != [] {
      EffectKeys(s, es[0]);
      assert es == [es[0]] + es[1..];
      UnusedHead(es[0], es[1..], s.cells.Keys);
      UnusedIsFresh(DoEffect(s, es[0]), es[1..]);
    }
  }

  lemma UnusedHead(e: Effect, more: seq<Effect>, used: set<Name>)
    requires Unused(SpawnedBy([e] + more), used)
    ensures e.Spawn? ==> e.name !in used
    ensures Unused(SpawnedBy(more), used + if e.Spawn? then {e.name} else {})
  {
    assert ([e] + more)[1..] == more;
    if e.Spawn? {
      UnusedStep(e.name, SpawnedBy(more), used);
    } else {
      assert SpawnedBy([e] + more) == SpawnedBy(more);
      assert used + {} == used;
    }
  }

  lemma ActKeys(s: Sched, n: Name, a: Act)
    requires s.me < |s.ready.locals| && n in s.cells
    ensures n in ActStep(s, n, a).cells
    ensures ActStep(s, n, a).cells.Keys ==
            s.cells.Keys + if a.Do? && a.effect.Spawn? then {a.effect.name} else {}
  {
    match a
    case Hook(h) => assert SetCell(s, n, HookStep(s.cells[n], h)).cells.Keys == s.cells.Keys;
    case Do(e) => EffectKeys(s, e);
  }

  /** Acts that hand out unused names are fresh, and leave the remaining names unused. */
  lemma {:induction false} UnusedActs(s: Sched, n: Name, acts: seq<Act>, rest: seq<Effect>)
    requires s.me < |s.ready.locals| && n in s.cells
    requires Unused(SpawnedBy(EffectsOf(acts) + rest), s.cells.Keys)
    ensures FreshActs(s, n, acts)
    ensures Unused(SpawnedBy(rest), DoActs(s, n, acts).cells.Keys)
    decreases |acts|
  {
    if acts == [] {
      assert EffectsOf(acts) + rest == rest;
    } else {
      hide SpawnedBy, Unused, DoEffect;
      ActKeys(s, n, acts[0]);
      match acts[0] {
        case Hook(h) =>
          assert EffectsOf(acts) == EffectsOf(acts[1..]);
          assert s.cells.Keys + {} == s.cells.Keys;
        case Do(e) =>
          var more := EffectsOf(acts[1..]) + rest;
          assert EffectsOf(acts) + rest == [e] + more;
          UnusedHead(e, more, s.cells.Keys);
      }
      UnusedActs(ActStep(s, n, acts[0]), n, acts[1..], rest);
    }
  }

  lemma UnusedStretch(s: Sched, n: Name, now1: nat, b: Stretch)
    requires s.me < |s.ready.locals| && n in s.cells && Unused(NamesOf(b), s.cells.Keys)
    ensures FreshStretch(s, n, now1, b)
  {
    var run := ToRunning(s.cells[n], now1);
    if run.Some? {
      var s1 := SetCell(Report(s, OnResume(n, s.cells[n])), n, run.value);
      assert s1.cells.Keys == s.cells.Keys;
      UnusedActs(s1, n, b.acts, b.reaction);
      var s2 := RunBody(s, n, now1, b);
      if n in s2.cells && AfterBody(s2.cells[n], b.end).Some? {
        var s3 := Conclude(s2, n, AfterBody(s2.cells[n], b.end).value);
        assert s3.cells.Keys == s2.cells.Keys;
        UnusedIsFresh(s3, b.reaction);
      }
    }
  }

  // ---------- the names in use only grow by those handed out ----------

  lemma {:induction false} EffectsKeys(s: Sched, es: seq<Effect>)
    requires s.me < |s.ready.locals|
    ensures DoEffects(s, es).cells.Keys == s.cells.Keys + set x | x in SpawnedBy(es)
    decreases |es|
  {
    if es != [] {
      EffectKeys(s, es[0]);
      EffectsKeys(DoEffect(s, es[0]), es[1..]);
    }
  }

  lemma {:induction false} ActsKeys(s: Sched, n: Name, acts: seq<Act>)
    requires s.me < |s.ready.locals| && n in s.cells
    ensures DoActs(s, n, acts).cells.Keys == s.cells.Keys + set x | x in SpawnedBy(EffectsOf(acts))
    decreases |acts|
  {
    if acts != [] {
      ActKeys(s, n, acts[0]);
      ActsKeys(ActStep(s, n, acts[0]), n, acts[1..]);
      var rest := EffectsOf(acts[1..]);
      if acts[0].Do? {
        assert ([acts[0].effect] + rest)[1..] == rest;
      } else {
        assert [] + rest == rest;
      }
    }
  }

  lemma PlaceCells(s: Sched, n: Name, st: CoroutineState, now: nat)
    requires s.me < |s.ready.locals|
    ensures Place(s, n, st, now).cells == s.cells
  {
  }

  lemma ResumeKeys(s: Sched, n: Name, now1: nat, b: Stretch, now2: nat)
    requires s.me < |s.ready.locals| && n in s.cells
    ensures Resume(s, n, now1, b, now2).sched.cells.Keys <= s.cells.Keys + NewNames(b)
  {
    SpawnedByAppend(EffectsOf(b.acts), b.reaction);
    var run := ToRunning(s.cells[n], now1);
    if run.Some? {
      var s1 := SetCell(Report(s, OnResume(n, s.cells[n])), n, run.value);
      assert s1.cells.Keys == s.cells.Keys;
      ActsKeys(s1, n, b.acts);
      var s2 := RunBody(s, n, now1, b);
      hide DoActs, DoEffects, Place, SpawnedBy, EffectsOf, SetCell, Report;
      var st := if n in s2.cells then AfterBody(s2.cells[n], b.end) else None;
      if st.Some? {
        var s3 := Conclude(s2, n, st.value);
        assert s3.cells.Keys == s2.cells.Keys;
        EffectsKeys(s3, b.reaction);
        PlaceCells(DoEffects(s3, b.reaction), n, st.value, now2);
      }
    }
  }

  lemma {:induction false} WakeDueKeys(s: Sched, ns: seq<Name>)
    requires s.me < |s.ready.locals| && forall n | n in ns :: n in s.cells
    ensures WakeDue(s, ns).cells.Keys == s.cells.Keys
    decreases |ns|
  {
    if ns != [] {
      assert SetCell(s, ns[0], Ready).cells.Keys == s.cells.Keys;
      WakeDueKeys(Push(SetCell(s, ns[0], Ready), ns[0]), ns[1..]);
    }
  }

  lemma {:induction false} ExpireKeys(s: Sched, ns: seq<Name>)
    requires s.me < |s.ready.locals|
    ensures Expire(s, ns).cells.Keys == s.cells.Keys
    decreases |ns|
  {
    if ns != [] {
      assert ExpireOne(s, ns[0]).cells.Keys == s.cells.Keys;
      ExpireKeys(ExpireOne(s, ns[0]), ns[1..]);
    }
  }

  lemma CheckReadyKeys(s: Sched, clock: nat, cut1: nat, cut2: nat)
    requires Inv(s, clock) && cut1 <= clock
    ensures CheckReady(s, cut1, cut2).cells.Keys == s.cells.Keys
  {
    assert Shape(s);
    DueStep(s, clock, cut1);
    hide MidInv, WakeDue, Expire, Timer.Due;
    var s0 := s.(suspend := Timer.Later(s.suspend, cut1));
    var s1 := WakeDue(s0, Timer.Due(s.suspend, cut1));
    WakeDueShape(s0, Timer.Due(s.suspend, cut1));
    WakeDueKeys(s0, Timer.Due(s.suspend, cut1));
    ExpireKeys(s1.(deadlines := Timer.Later(s1.deadlines, cut2)), Timer.Due(s1.deadlines, cut2));
  }

  function AllNames(script: seq<Stretch>): seq<Name> {
    if script == [] then [] else NamesOf(script[0]) + AllNames(script[1..])
  }

  lemma UnusedSplit(a: seq<Name>, b: seq<Name>, used: set<Name>, used': set<Name>)
    requires Unused(a + b, used) && used' <= used + set x | x in a
    ensures Unused(a, used) && Unused(b, used')
  {
    var all := a + b;
    forall i | 0 <= i < |a| ensures all[i] == a[i] && a[i] !in used {
      assert all[i] in all;
    }
    forall j | 0 <= j < |b| ensures all[|a| + j] == b[j] && b[j] !in used' {
      assert all[|a| + j] in all;
    }
  }

  // ---------- facts that the methods below need one at a time ----------

  ghost predicate Rooted(s: Sched) {
    s.me < |s.ready.locals|
  }

  /** The syscall map files every coroutine under its own name, in a `SystemCall` state. */
  ghost predicate Mapped(s: Sched) {
    forall n | n in s.syscall :: s.syscall[n] == n && n in s.cells && s.cells[n].SystemCall?
  }

  lemma IsMapped(s: Sched, clock: nat, held: multiset<Name>, owed: seq<Name>)
    requires MidInv(s, clock, held, owed)
    ensures Rooted(s) && Mapped(s)
  {
  }

  /** Suspended coroutines whose timestamps have passed. */
  ghost predicate Sleepers(s: Sched, ns: seq<Name>, clock: nat) {
    forall n | n in ns :: n in s.cells && s.cells[n].Suspended? && s.cells[n].timestamp <= clock
  }

  lemma SleepersSplit(s: Sched, n: Name, ns: seq<Name>, clock: nat)
    requires Sleepers(s, [n] + ns, clock)
    ensures Sleepers(s, [n], clock) && Sleepers(s, ns, clock)
  {
    assert n in [n] + ns;
  }

  lemma SleepersStay(s: Sched, s': Sched, n: Name, ns: seq<Name>, clock: nat, clock': nat)
    requires Rooted(s) && n !in ns && s' == Push(SetCell(s, n, Ready), n)
    requires Sleepers(s, ns, clock) && clock <= clock'
    ensures Sleepers(s', ns, clock')
  {
  }

  lemma EffectIs(s: Sched, e: Effect)
    requires s.me < |s.ready.locals|
    requires e.Wake? && e.name in s.syscall ==>
               s.syscall[e.name] == e.name && e.name in s.cells && s.cells[e.name].SystemCall?
    ensures e.Spawn? ==> DoEffect(s, e) == SchedulerModel.Submit(s, e.name)
    ensures e.Wake? && e.name !in s.syscall ==> DoEffect(s, e) == s
    ensures e.Wake? && e.name in s.syscall ==>
              DoEffect(s, e) == s.(syscall := s.syscall - {e.name},
                                   cells := s.cells[e.name := SystemCall(s.cells[e.name].call, Computing)],
                                   ready := WorkSteal.PushBack(s.ready, s.me, e.name))
  {
  }

  lemma DoActsIs(s: Sched, n: Name, acts: seq<Act>)
    requires Rooted(s) && acts != []
    ensures Rooted(ActStep(s, n, acts[0]))
    ensures DoActs(s, n, acts) == DoActs(ActStep(s, n, acts[0]), n, acts[1..])
  {
  }

  lemma EffectShape(s: Sched, e: Effect)
    requires s.me < |s.ready.locals|
    ensures DoEffect(s, e).me == s.me && |DoEffect(s, e).ready.locals| == |s.ready.locals|
  {
  }

  lemma StillShaped(s: Sched, clock: nat, held: multiset<Name>)
    requires MidInv(s, clock, held, [])
    ensures Shape(s)
  {
  }

  lemma InvShape(s: Sched, clock: nat)
    requires Inv(s, clock)
    ensures Shape(s)
  {
  }

  lemma EmptyPop(s: Sched, t: nat, start: nat)
    requires Shape(s) && start < |s.ready.locals|
    ensures var p := WorkSteal.PopFront(s.ready, s.me, t, start);
            p.item.None? ==> WorkSteal.Content(p.queues) == multiset{}
  {
    hide WorkSteal.PopFront, WorkSteal.Content;
    WorkSteal.PopConserves(s.ready, s.me, t, start);
    WorkSteal.PopNoneIffEmpty(s.ready, s.me, t, start);
  }

  /** The coroutine popped is in no container and can be resumed; or nothing is ready. */
  ghost predicate InHand(s: Sched, clock: nat, next: Option<Name>) {
    match next
    case Some(n) => MidInv(s, clock, multiset{n}, []) && n in s.cells && Runnable(s.cells[n], clock)
    case None => Inv(s, clock) && WorkSteal.Content(s.ready) == multiset{}
  }

  /** A pop leaves the popped coroutine in hand, or nothing anywhere. */
  lemma PopLeaves(s: Sched, clock: nat, start: nat)
    requires Inv(s, clock) && Shape(s) && start < |s.ready.locals|
    ensures var t := WorkSteal.NextTick(s.tick);
            var p := WorkSteal.PopFront(s.ready, s.me, t, start);
            InHand(s.(ready := p.queues, tick := t), clock, p.item)
  {
    hide MidInv, WorkSteal.PopFront, WorkSteal.Content, Runnable;
    PopStep(s, clock, start);
    EmptyPop(s, WorkSteal.NextTick(s.tick), start);
  }

  /** What a run of the scheduling loop came to: asleep with some time left, still going, or an error. */
  datatype Progressed = Slept(left: nat) | Stepped | Broke

  /** The choice of a turn does not depend on the clock readings after it. */
  lemma SameChoice(s: Sched, r: Readings, now1: nat, now2: nat)
    requires Shape(s)
    ensures AtResume(s, r) == AtResume(s, Readings(r.cut1, r.cut2, now1, now2, r.start))
    ensures Chosen(s, r) == Chosen(s, Readings(r.cut1, r.cut2, now1, now2, r.start))
  {
    hide CheckReady, WorkSteal.PopFront;
  }

  lemma TurnIs(s: Sched, r: Readings, b: Stretch)
    requires Shape(s)
    ensures Chosen(s, r).None? ==> Turn(s, r, b) == Idle(AtResume(s, r))
    ensures Chosen(s, r).Some? ==>
              var s2 := AtResume(s, r); var n := Chosen(s, r).value;
              n in s2.cells && s2.me < |s2.ready.locals| ==>
                && Turn(s, r, b) == Resume(s2, n, r.now1, b, r.now2)
                && (FreshStretch(s2, n, r.now1, b) ==> FreshTurn(s, r, b))
    ensures Chosen(s, r).None? ==> FreshTurn(s, r, b)
  {
    hide CheckReady, WorkSteal.PopFront, Resume, FreshStretch;
  }

  /** The names that the reaction hands out are new. */
  lemma ReactionIsFresh(s: Sched, n: Name, now1: nat, b: Stretch)
    requires s.me < |s.ready.locals| && n in s.cells && ToRunning(s.cells[n], now1).Some? && FreshStretch(s, n, now1, b)
    ensures var s2 := RunBody(s, n, now1, b);
            n in s2.cells && AfterBody(s2.cells[n], b.end).Some? ==>
              var s3 := Conclude(s2, n, AfterBody(s2.cells[n], b.end).value);
              s3.me < |s3.ready.locals| && FreshEffects(s3, b.reaction)
  {
    hide FreshActs, FreshEffects, DoActs;
  }

  lemma ResumeIsNotIdle(s: Sched, n: Name, now1: nat, b: Stretch, now2: nat)
    requires s.me < |s.ready.locals| && n in s.cells
    ensures !Resume(s, n, now1, b, now2).Idle?
  {
    hide RunBody, DoEffects, Place, Conclude, Drop;
  }

  /** A turn of `s` resumes a coroutine whose body `b` finishes while inside a system call. */
  ghost predicate FinishesInCall(s: Sched, rd: Readings, b: Stretch) {
    && Shape(s) && !b.end.Yields? && Chosen(s, rd).Some? && Chosen(s, rd).value in AtResume(s, rd).cells
    && CellAtEnd(AtResume(s, rd).cells[Chosen(s, rd).value], rd.now1, b) != Running
  }

  /**
   * The last move of `run` is a turn of a body of the script that finishes inside a system call; it
   * leads to `s'`, and exactly the coroutine it resumed is dropped.
   */
  ghost predicate LastTurnBroke(orig: Sched, c0: nat, run: seq<T.Move>, script: seq<Stretch>, s': Sched)
    requires Inv(orig, c0)
  {
    && run != [] && run[|run| - 1].MTurn? && T.LegalRun(orig, c0, run[..|run| - 1])
    && var s, mv := T.Run(orig, c0, run[..|run| - 1]).0, run[|run| - 1];
       && mv.stretch in script && FinishesInCall(s, mv.readings, mv.stretch)
       && s' == Turn(s, mv.readings, mv.stretch).sched
       && s'.lost == orig.lost + [Chosen(s, mv.readings).value]
  }

  lemma TurnBreaks(orig: Sched, c0: nat, run: seq<T.Move>, rd: Readings, b: Stretch, script: seq<Stretch>,
                   s': Sched, clock': nat)
    requires Inv(orig, c0) && T.LegalRun(orig, c0, run) && b in script
    requires var (s, clock) := T.Run(orig, c0, run); TookTurn(s, clock, rd, b, s', clock', Broke) && s.lost == orig.lost
    ensures LastTurnBroke(orig, c0, run + [T.MTurn(rd, b)], script, s')
  {
    var (s, clock) := T.Run(orig, c0, run);
    var longer := run + [T.MTurn(rd, b)];
    assert longer[..|longer| - 1] == run;
    T.RunKeeps(orig, c0, run);
    hide MidInv, T.LegalRun, T.Run, Turn, Chosen, AtResume, CellAtEnd, FreshTurn, Timely;
    TurnKeeps(s, clock, rd, b);
    BrokeTurn(s, clock, rd, b, s', clock', Broke);
  }

  lemma BrokeTurn(s: Sched, clock: nat, rd: Readings, b: Stretch, s': Sched, clock': nat, r: Progressed)
    requires Inv(s, clock) && TookTurn(s, clock, rd, b, s', clock', r)
    ensures r.Broke? <==> FinishesInCall(s, rd, b)
  {
    TurnKeeps(s, clock, rd, b);
    hide MidInv, Turn, Chosen, AtResume, CellAtEnd, FreshTurn;
  }

  /** The scheduler went from `s` to `s'` by one turn, with the outcome `r`. */
  ghost predicate TookTurn(s: Sched, clock: nat, rd: Readings, b: Stretch, s': Sched, clock': nat, r: Progressed) {
    && Shape(s) && Timely(s, clock, rd) && FreshTurn(s, rd, b)
    && s' == Turn(s, rd, b).sched && clock' == rd.now2
    && (r.Slept? <==> Turn(s, rd, b).Idle?)
    && (r.Broke? <==> Turn(s, rd, b).Failed?)
  }

  lemma TimelySince(s: Sched, c0: nat, c1: nat, rd: Readings)
    requires Timely(s, c1, rd) && c0 <= c1
    ensures Timely(s, c0, rd) && c1 <= rd.cut1
  {
  }

  lemma IdleTurn(s: Sched, clock: nat, rd: Readings, b: Stretch, left: nat)
    requires Shape(s) && Timely(s, clock, rd) && Chosen(s, rd).None?
    ensures TookTurn(s, clock, rd, b, AtResume(s, rd), rd.now2, Slept(left))
  {
    TurnIs(s, rd, b);
    hide Turn, AtResume, Chosen, FreshTurn;
  }

  lemma ResumedTurn(s: Sched, clock: nat, rd: Readings, b: Stretch, n: Name, ok: bool)
    requires Shape(s) && Timely(s, clock, rd) && Chosen(s, rd) == Some(n)
    requires Shape(AtResume(s, rd)) && n in AtResume(s, rd).cells && FreshStretch(AtResume(s, rd), n, rd.now1, b)
    requires ok == Resume(AtResume(s, rd), n, rd.now1, b, rd.now2).Ran?
    ensures TookTurn(s, clock, rd, b, Resume(AtResume(s, rd), n, rd.now1, b, rd.now2).sched, rd.now2,
                     if ok then Stepped else Broke)
  {
    TurnIs(s, rd, b);
    ResumeIsNotIdle(AtResume(s, rd), n, rd.now1, b, rd.now2);
    hide Turn, AtResume, Chosen, FreshTurn, Resume, FreshStretch;
  }

  /** Every turn of a run resumes a coroutine and gets it back. */
  ghost predicate AllRan(s: Sched, clock: nat, run: seq<T.Move>)
    requires Inv(s, clock) && T.LegalRun(s, clock, run)
    decreases |run|
  {
    run == []
    || (&& Shape(s) && run[0].MTurn? && Turn(s, run[0].readings, run[0].stretch).Ran?
        && (T.MoveKeeps(s, clock, run[0]);
            AllRan(T.Apply(s, run[0]), T.ClockAfter(clock, run[0]), run[1..])))
  }

  /** The clock when turn `i` is over, or at the beginning for the turn before the first. */
  function ClockBefore(c0: nat, run: seq<T.Move>, i: nat): nat
    requires i <= |run|
  {
    if i > 0 && run[i - 1].MTurn? then run[i - 1].readings.now2 else c0
  }

  /**
   * The turns of a scheduling loop and the clock readings at its head: turn `i` resumes the `i`-th body
   * of the script, and was begun because its reading was before the deadline.
   */
  ghost predicate Headed(c0: nat, timeout: nat, run: seq<T.Move>, heads: seq<nat>, script: seq<Stretch>) {
    && |run| <= |heads| && |run| <= |script|
    && forall i | 0 <= i < |run| ::
         && run[i].MTurn? && run[i].stretch == script[i]
         && ClockBefore(c0, run, i) <= heads[i] <= run[i].readings.cut1 && heads[i] < timeout
  }

  /** A reading at the head and the turn that follows it are added. */
  lemma HeadedStep(c0: nat, timeout: nat, run: seq<T.Move>, heads: seq<nat>, script: seq<Stretch>,
                   h: nat, rd: Readings)
    requires Headed(c0, timeout, run, heads, script) && |heads| == |run| < |script|
    requires ClockBefore(c0, run, |run|) <= h <= rd.cut1 && h < timeout
    ensures Headed(c0, timeout, run + [T.MTurn(rd, script[|run|])], heads + [h], script)
  {
    var run' := run + [T.MTurn(rd, script[|run|])];
    forall i | 0 <= i <= |run| ensures ClockBefore(c0, run', i) == ClockBefore(c0, run, i) {
    }
  }

  /** A turn that gets its coroutine back. */
  lemma {:induction false} AllRanStep(s: Sched, clock: nat, run: seq<T.Move>, rd: Readings, b: Stretch)
    requires Inv(s, clock) && T.LegalRun(s, clock, run) && AllRan(s, clock, run)
    requires T.LegalRun(s, clock, run + [T.MTurn(rd, b)])
    requires Shape(T.Run(s, clock, run).0) && Turn(T.Run(s, clock, run).0, rd, b).Ran?
    ensures AllRan(s, clock, run + [T.MTurn(rd, b)])
    decreases |run|
  {
    hide MidInv, Turn, T.Apply, T.Legal;
    var run' := run + [T.MTurn(rd, b)];
    if run == [] {
      assert run' == [T.MTurn(rd, b)] && run'[1..] == [];
      T.MoveKeeps(s, clock, run'[0]);
    } else {
      assert run'[1..] == run[1..] + [T.MTurn(rd, b)] && run'[0] == run[0];
      T.MoveKeeps(s, clock, run[0]);
      T.RunBack(s, clock, run);
      AllRanStep(T.Apply(s, run[0]), T.ClockAfter(clock, run[0]), run[1..], rd, b);
    }
  }

  /** What the readings at the loop head say about the way the loop ends. */
  ghost predicate ReadingsDecide(c0: nat, timeout: nat, run: seq<T.Move>, heads: seq<nat>,
                                 script: seq<Stretch>, r: Progressed) {
    && Headed(c0, timeout, run, heads, script)
    && |heads| == |run| + (if r == Slept(0) then 1 else 0)
    && (r == Slept(0) <==> heads != [] && timeout <= heads[|heads| - 1])
    && (r == Slept(0) ==> ClockBefore(c0, run, |run|) <= heads[|run|])
    && (r.Slept? && r.left > 0 ==> heads != [] && r.left == timeout - heads[|heads| - 1])
    && (r.Stepped? ==> |run| == |script|)
  }

  /** All turns of the loop resume a coroutine and get it back, but one at which it stops. */
  ghost predicate TurnsRan(s: Sched, c0: nat, run: seq<T.Move>, r: Progressed)
    requires Inv(s, c0)
  {
    var ran := if r.Stepped? || r == Slept(0) then |run| else |run| - 1;
    && 0 <= ran && T.LegalRun(s, c0, run[..ran]) && AllRan(s, c0, run[..ran])
    && (ran < |run| ==> (r.Slept? <==> Idles(T.Run(s, c0, run[..ran]).0, run[ran])))
  }

  /** How the loop ends, with the legal run it has performed. */
  ghost predicate LoopEnds(s: Sched, c0: nat, timeout: nat, run: seq<T.Move>, heads: seq<nat>,
                           script: seq<Stretch>, s': Sched, r: Progressed) {
    && Inv(s, c0) && T.LegalRun(s, c0, run) && s' == T.Run(s, c0, run).0
    && ReadingsDecide(c0, timeout, run, heads, script, r) && TurnsRan(s, c0, run, r)
    && (r.Broke? ==> LastTurnBroke(s, c0, run, script, s'))
  }

  /** A turn that finds nothing to resume. */
  ghost predicate Idles(s: Sched, m: T.Move) {
    Shape(s) && m.MTurn? && Turn(s, m.readings, m.stretch).Idle?
  }

  lemma RanTurn(s: Sched, clock: nat, run: seq<T.Move>, rd: Readings, b: Stretch, s': Sched, clock': nat)
    requires Inv(s, clock) && T.LegalRun(s, clock, run) && AllRan(s, clock, run)
    requires T.LegalRun(s, clock, run + [T.MTurn(rd, b)])
    requires TookTurn(T.Run(s, clock, run).0, T.Run(s, clock, run).1, rd, b, s', clock', Stepped)
    ensures AllRan(s, clock, run + [T.MTurn(rd, b)])
  {
    hide MidInv, T.LegalRun, T.Run, Turn, FreshTurn, Timely, AllRan;
    AllRanStep(s, clock, run, rd, b);
  }

  lemma ShapeGives(s: Sched)
    requires Shape(s)
    ensures s.me < |s.ready.locals|
  {
  }

  /** A turn extends a run. */
  lemma TurnExtends(s: Sched, clock: nat, run: seq<T.Move>, rd: Readings, b: Stretch,
                    s': Sched, clock': nat, r: Progressed)
    requires Inv(s, clock) && T.LegalRun(s, clock, run)
    requires TookTurn(T.Run(s, clock, run).0, T.Run(s, clock, run).1, rd, b, s', clock', r)
    ensures T.LegalRun(s, clock, run + [T.MTurn(rd, b)])
    ensures T.Run(s, clock, run + [T.MTurn(rd, b)]) == (s', clock')
  {
    hide MidInv, T.LegalRun, T.Run, Turn, FreshTurn, Timely;
    T.RunSnoc(s, clock, run, T.MTurn(rd, b));
  }

  /** The loop has gone from `orig` at `c0` through the turns of `run` to `s`, and goes on. */
  ghost predicate Looping(orig: Sched, c0: nat, timeout: nat, run: seq<T.Move>, heads: seq<nat>,
                          script: seq<Stretch>, s: Sched, clock: nat) {
    && Inv(orig, c0) && T.LegalRun(orig, c0, run) && T.Run(orig, c0, run) == (s, clock) && AllRan(orig, c0, run)
    && Headed(c0, timeout, run, heads, script) && |heads| == |run|
    && ClockBefore(c0, run, |run|) == clock && s.lost == orig.lost
  }

  lemma LoopBegins(s: Sched, clock: nat, timeout: nat, script: seq<Stretch>)
    requires Inv(s, clock)
    ensures Looping(s, clock, timeout, [], [], script, s, clock)
  {
    hide MidInv;
  }

  lemma LoopGoesOn(orig: Sched, c0: nat, timeout: nat, run: seq<T.Move>, heads: seq<nat>, script: seq<Stretch>,
                   s: Sched, clock: nat, h: nat, rd: Readings, s': Sched)
    requires Looping(orig, c0, timeout, run, heads, script, s, clock) && |run| < |script|
    requires TookTurn(s, clock, rd, script[|run|], s', rd.now2, Stepped)
    requires clock <= h <= rd.cut1 && h < timeout && s'.lost == s.lost
    ensures Looping(orig, c0, timeout, run + [T.MTurn(rd, script[|run|])], heads + [h], script, s', rd.now2)
  {
    hide MidInv, T.LegalRun, T.Run, TookTurn, AllRan, Headed;
    TurnExtends(orig, c0, run, rd, script[|run|], s', rd.now2, Stepped);
    HeadedStep(c0, timeout, run, heads, script, h, rd);
    RanTurn(orig, c0, run, rd, script[|run|], s', rd.now2);
  }

  lemma LoopStops(orig: Sched, c0: nat, timeout: nat, run: seq<T.Move>, heads: seq<nat>, script: seq<Stretch>,
                  s: Sched, clock: nat, h: nat, rd: Readings, s': Sched, r: Progressed)
    requires Looping(orig, c0, timeout, run, heads, script, s, clock) && |run| < |script|
    requires TookTurn(s, clock, rd, script[|run|], s', rd.now2, r)
    requires clock <= h <= rd.cut1 && h < timeout && (r.Broke? || r == Slept(timeout - h))
    ensures LoopEnds(orig, c0, timeout, run + [T.MTurn(rd, script[|run|])], heads + [h], script, s', r)
  {
    var b := script[|run|];
    hide MidInv, T.LegalRun, T.Run, TookTurn, AllRan, Headed, LastTurnBroke, Idles, ReadingsDecide, TurnsRan;
    StopIdles(s, clock, rd, b, s', r);
    TurnExtends(orig, c0, run, rd, b, s', rd.now2, r);
    if r.Broke? {
      TurnBreaks(orig, c0, run, rd, b, script, s', rd.now2);
    }
    LastReading(c0, timeout, run, heads, script, h, rd, r);
    LastTurn(orig, c0, run, T.MTurn(rd, b), r);
  }

  lemma LastReading(c0: nat, timeout: nat, run: seq<T.Move>, heads: seq<nat>, script: seq<Stretch>,
                    h: nat, rd: Readings, r: Progressed)
    requires Headed(c0, timeout, run, heads, script) && |heads| == |run| < |script|
    requires ClockBefore(c0, run, |run|) <= h <= rd.cut1 && h < timeout && (r.Broke? || r == Slept(timeout - h))
    ensures ReadingsDecide(c0, timeout, run + [T.MTurn(rd, script[|run|])], heads + [h], script, r)
  {
    HeadedStep(c0, timeout, run, heads, script, h, rd);
    hide Headed;
  }

  lemma LastTurn(orig: Sched, c0: nat, run: seq<T.Move>, m: T.Move, r: Progressed)
    requires Inv(orig, c0) && T.LegalRun(orig, c0, run) && AllRan(orig, c0, run)
    requires (r.Broke? || (r.Slept? && r.left > 0)) && (r.Slept? <==> Idles(T.Run(orig, c0, run).0, m))
    ensures TurnsRan(orig, c0, run + [m], r)
  {
    hide MidInv, T.LegalRun, T.Run, AllRan, Idles;
    assert (run + [m])[..|run|] == run && (run + [m])[|run|] == m;
  }

  lemma StopIdles(s: Sched, clock: nat, rd: Readings, b: Stretch, s': Sched, r: Progressed)
    requires TookTurn(s, clock, rd, b, s', rd.now2, r)
    ensures r.Slept? <==> Idles(s, T.MTurn(rd, b))
  {
    hide Turn, FreshTurn, Timely;
  }

  lemma LoopTimesOut(orig: Sched, c0: nat, timeout: nat, run: seq<T.Move>, heads: seq<nat>, script: seq<Stretch>,
                     s: Sched, clock: nat, h: nat)
    requires Looping(orig, c0, timeout, run, heads, script, s, clock) && clock <= h && timeout <= h
    ensures LoopEnds(orig, c0, timeout, run, heads + [h], script, s, Slept(0))
  {
    hide MidInv, T.LegalRun, T.Run, AllRan;
    assert run[..|run|] == run;
  }

  lemma LoopRunsOut(orig: Sched, c0: nat, timeout: nat, run: seq<T.Move>, heads: seq<nat>, script: seq<Stretch>,
                    s: Sched, clock: nat)
    requires Looping(orig, c0, timeout, run, heads, script, s, clock) && |run| == |script|
    ensures LoopEnds(orig, c0, timeout, run, heads, script, s, Stepped)
  {
    hide MidInv, T.LegalRun, T.Run, AllRan;
    assert run[..|run|] == run;
  }

  class SchedulerImpl {
    var ready: WorkSteal.Queues<Name>
    const me: nat
    var tick: nat
    var suspend: Timer.Entries<Name>
    var syscall: map<Name, Name>
    var deadlines: Timer.Entries<Name>
    var cells: map<Name, CoroutineState>
    var log: seq<Event>
    var lost: seq<Name>
    var clock: nat

    ghost function State(): Sched
      reads this
    {
      Sched(ready, me, tick, suspend, syscall, deadlines, cells, log, lost)
    }

    ghost predicate Valid()
      reads this
    {
      Inv(State(), clock)
    }

    constructor (size: nat, capacity: nat, me: nat)
      requires me < size && 1 <= capacity
      ensures Valid() && State() == T.Start(size, capacity, me) && clock == 0
    {
      this.ready := WorkSteal.Queues([], seq(size, _ => []), capacity);
      this.me, this.tick, this.clock := me, 0, 0;
      suspend, syscall, deadlines, cells, log, lost := map[], map[], map[], map[], [], [];
      new;
      WorkSteal.BagEmpty(ready.locals);
      forall n ensures OnePlace(State(), multiset{}, n) {
      }
    }

    /** The wall clock, taken to be nondecreasing. */
    method Now() returns (t: nat)
      modifies this`clock
      ensures old(clock) <= t == clock && State() == old(State())
      ensures old(Valid()) ==> Valid()
    {
      var d: nat :| 0 <= d;
      clock := clock + d;
      t := clock;
      hide MidInv;
      if old(Valid()) {
        ClockStep(State(), old(clock), clock, multiset{}, []);
      }
    }

    method Submit(n: Name)
      requires Valid() && n !in cells
      modifies this
      ensures Valid() && clock == old(clock) && State() == SchedulerModel.Submit(old(State()), n)
    {
      SubmitKeeps(State(), clock, multiset{}, n);
      InvShape(State(), clock);
      hide MidInv;
      Create(n);
    }

    /** A new coroutine: created, made ready, reported and queued. */
    method Create(n: Name)
      requires Rooted(State())
      modifies this`cells, this`log, this`ready
      ensures State() == SchedulerModel.Submit(old(State()), n)
    {
      cells := cells[n := Ready];
      log := log + [OnCreate(n)];
      ready := WorkSteal.PushBack(ready, me, n);
    }

    /** The state found in the syscall map is always a `SystemCall`: the `unreachable!` is unreachable. */
    method TryResume(n: Name)
      requires Valid()
      modifies this
      ensures Valid() && clock == old(clock)
      ensures Rooted(old(State())) && State() == DoEffect(old(State()), Wake(n))
    {
      hide MidInv, State, DoEffect;
      IsMapped(State(), clock, multiset{}, []);
      EffectKeeps(State(), clock, multiset{}, Wake(n));
      WakeByName(n);
    }

    /** `ready()` accepts a coroutine whose timestamp has passed, and it is queued. */
    method Awaken(n: Name, t: nat)
      requires Rooted(State()) && n in cells && cells[n].Suspended? && cells[n].timestamp <= t
      modifies this`cells, this`ready
      ensures State() == Push(SetCell(old(State()), n, Ready), n)
    {
      var next := ToReady(cells[n], t);
      cells := cells[n := next.value];
      ready := WorkSteal.PushBack(ready, me, n);
    }

    method ReadyOne(n: Name, ghost held: multiset<Name>)
      requires MidInv(State(), clock, held + multiset{n}, []) && Sleepers(State(), [n], clock)
      modifies this
      ensures Rooted(old(State())) && clock >= old(clock)
      ensures MidInv(State(), clock, held, [])
      ensures State() == Push(SetCell(old(State()), n, Ready), n)
    {
      ghost var before, c0 := State(), clock;
      assert n in [n];
      assert cells == before.cells;
      hide MidInv, State, SetCell, Push;
      IsMapped(before, clock, held + multiset{n}, []);
      var t := Now();
      assert State() == before;
      ClockStep(before, c0, clock, held + multiset{n}, []);
      CellStep(before, clock, held + multiset{n}, [], n, Ready);
      PushStep(SetCell(before, n, Ready), clock, held, [], n);
      Awaken(n, t);
    }

    /** The inner loop of the first half of `check_ready`: one popped entry becomes ready, in order. */
    method ReadyEntry(entry: seq<Name>)
      requires MidInv(State(), clock, multiset(entry), []) && Sleepers(State(), entry, clock)
      modifies this
      ensures Valid() && clock >= old(clock)
      ensures Rooted(old(State())) && State() == WakeDue(old(State()), entry)
    {
      ghost var orig := State();
      hide MidInv, State, Push, SetCell, Sleepers;
      IsMapped(orig, clock, multiset(entry), []);
      var i := 0;
      assert entry[0..] == entry;
      WakeDueNothing(orig);
      while i < |entry|
        invariant i <= |entry| && clock >= old(clock)
        invariant MidInv(State(), clock, multiset(entry[i..]), [])
        invariant Sleepers(State(), entry[i..], clock)
        invariant State() == WakeDue(orig, entry[..i])
      {
        ghost var n, rest := entry[i], entry[i + 1..];
        assert entry[i..] == [n] + rest;
        assert multiset(entry[i..]) == multiset(rest) + multiset{n};
        HeldIsApart(State(), clock, multiset(entry[i..]), [], n);
        assert n !in rest;
        WakeDueSnoc(orig, entry[..i], n);
        assert entry[..i + 1] == entry[..i] + [n];
        ghost var before, c0 := State(), clock;
        SleepersSplit(before, n, rest, clock);
        ReadyOne(entry[i], multiset(rest));
        SleepersStay(before, State(), n, rest, c0, clock);
        i := i + 1;
      }
      assert entry[i..] == [] && entry[..i] == entry;
      assert multiset(entry[i..]) == multiset{};
    }

    /** Takes the first entry of the suspend list, which is due, and makes it ready. */
    method ReadyFront(key: nat)
      requires Valid() && suspend != map[] && key == Timer.MinKey(suspend.Keys) && key <= clock
      modifies this
      ensures Valid() && clock >= old(clock)
      ensures me < |old(ready).locals|
      ensures State() == WakeDue(old(State()).(suspend := old(suspend) - {key}), old(suspend)[key].inner)
    {
      hide MidInv, WakeDue, Timer.Due, Timer.Later;
      var entry := suspend[key].inner;
      FirstEntry(suspend);
      DueStep(State(), clock, key);
      suspend := suspend - {key};
      ReadyEntry(entry);
    }

    /** The first loop of `check_ready`, on the suspend list; `cut` is its last clock reading. */
    method WakeSuspended() returns (ghost cut: nat)
      requires Valid()
      modifies this
      ensures Valid() && old(clock) <= cut == clock
      ensures me < |old(ready).locals|
      ensures State() == WakeDue(old(State()).(suspend := Timer.Later(old(suspend), cut)), Timer.Due(old(suspend), cut))
    {
      ghost var orig := State();
      assert Shape(orig);
      hide MidInv, Progress, WakeDue, Timer.Due, Timer.Later;
      ghost var done: seq<Name> := [];
      var rounds := |suspend|;
      var i := 0;
      assert orig == orig.(suspend := suspend);
      WakeDueNothing(orig);
      ProgressStart(suspend, clock);
      while i < rounds
        invariant i <= rounds && |suspend| == rounds - i
        invariant Valid() && old(clock) <= clock
        invariant State() == WakeDue(orig.(suspend := suspend), done)
        invariant Progress(orig.suspend, suspend, done, clock)
      {
        var key := Timer.MinKey(suspend.Keys);
        ghost var c0, before := clock, State();
        var t := Now();
        ClockStep(before, c0, clock, multiset{}, []);
        ProgressClock(orig.suspend, suspend, done, c0, clock);
        if t < key {
          ProgressEnd(orig.suspend, suspend, done, clock);
          return clock;
        }
        ghost var c1, rest, entry := clock, suspend - {key}, suspend[key].inner;
        Timer.RemoveShrinks(suspend, key);
        ProgressStep(orig.suspend, suspend, done, clock);
        WakeDueRebase(orig.(suspend := suspend), done, rest);
        WakeDueShape(orig.(suspend := rest), done);
        WakeDueAppend(orig.(suspend := rest), done, entry);
        WakeDueShape(WakeDue(orig.(suspend := rest), done), entry);
        ReadyFront(key);
        done := done + entry;
        assert suspend == rest;
        ProgressClock(orig.suspend, suspend, done, c1, clock);
        i := i + 1;
      }
      assert suspend == map[];
      ProgressEnd(orig.suspend, suspend, done, clock);
      cut := clock;
    }

    /** The coroutine registered under `n` leaves the syscall map for the ready queue in state `st`. */
    method Requeue(n: Name, st: CoroutineState)
      requires me < |ready.locals| && n in syscall
      modifies this`syscall, this`cells, this`ready
      ensures State() == old(State()).(syscall := old(syscall) - {n}, cells := old(cells)[old(syscall)[n] := st],
                                       ready := WorkSteal.PushBack(old(ready), me, old(syscall)[n]))
    {
      var co := syscall[n];
      syscall := syscall - {n};
      cells := cells[co := st];
      ready := WorkSteal.PushBack(ready, me, co);
    }

    /** One name of a popped deadline entry: its coroutine is woken if it still waits. */
    method ExpireByName(n: Name)
      requires Rooted(State()) && Mapped(State())
      modifies this`syscall, this`cells, this`ready
      ensures State() == ExpireOne(old(State()), n)
    {
      ExpireOneIs(State(), n);
      hide ExpireOne;
      if n in syscall {
        var st := cells[n];
        match st {
          case SystemCall(call, sub) =>
            if sub.Suspend? {
              st := ToSyscall(st, call, Timeout).value;
            }
          case _ =>
            assert false;
        }
        Requeue(n, st);
      }
    }

    /** The inner loop of the second half: the names of one popped entry, in order. */
    method ExpireEntry(entry: seq<Name>)
      requires MidInv(State(), clock, multiset{}, entry)
      modifies this
      ensures Valid() && clock == old(clock)
      ensures Rooted(old(State())) && State() == Expire(old(State()), entry)
    {
      ghost var orig := State();
      hide MidInv, State, ExpireOne, WorkSteal.Content;
      IsMapped(orig, clock, multiset{}, entry);
      var i := 0;
      assert entry[0..] == entry;
      while i < |entry|
        invariant i <= |entry| && clock == old(clock)
        invariant MidInv(State(), clock, multiset{}, entry[i..])
        invariant State() == Expire(orig, entry[..i])
      {
        ghost var n, before := entry[i], State();
        assert entry[i..][0] == n && entry[i..][1..] == entry[i + 1..];
        ExpireSnoc(orig, entry[..i], n);
        assert entry[..i + 1] == entry[..i] + [n];
        IsMapped(before, clock, multiset{}, entry[i..]);
        ExpireOneKeeps(before, clock, entry[i..], n);
        OwedStep(ExpireOne(before, n), clock, entry[i..]);
        ExpireByName(entry[i]);
        i := i + 1;
      }
      assert entry[i..] == [] && entry[..i] == entry;
    }

    /** The second loop of `check_ready`, on the syscall deadlines. */
    method WakeDeadlines() returns (ghost cut: nat)
      requires Valid()
      modifies this
      ensures Valid() && old(clock) <= cut == clock
      ensures me < |old(ready).locals|
      ensures State() == Expire(old(State()).(deadlines := Timer.Later(old(deadlines), cut)), Timer.Due(old(deadlines), cut))
    {
      ghost var orig := State();
      assert Shape(orig);
      hide MidInv, Progress, Timer.Due, Timer.Later;
      ghost var done: seq<Name> := [];
      var rounds := |deadlines|;
      var i := 0;
      assert orig == orig.(deadlines := deadlines);
      ProgressStart(deadlines, clock);
      while i < rounds
        invariant i <= rounds && |deadlines| == rounds - i
        invariant Valid() && old(clock) <= clock
        invariant State() == Expire(orig.(deadlines := deadlines), done)
        invariant Progress(orig.deadlines, deadlines, done, clock)
      {
        var key := Timer.MinKey(deadlines.Keys);
        ghost var c0 := clock;
        ghost var before := State();
        var t := Now();
        ClockStep(before, c0, clock, multiset{}, []);
        ProgressClock(orig.deadlines, deadlines, done, c0, clock);
        if t < key {
          ProgressEnd(orig.deadlines, deadlines, done, clock);
          return clock;
        }
        var entry := deadlines[key].inner;
        Timer.RemoveShrinks(deadlines, key);
        FirstEntry(deadlines);
        DeadlineStep(before, clock, key);
        ProgressStep(orig.deadlines, deadlines, done, clock);
        deadlines := deadlines - {key};
        ExpireRebase(orig.(deadlines := before.deadlines), done, deadlines);
        ExpireEntry(entry);
        ExpireAppend(orig.(deadlines := deadlines), done, entry);
        done := done + entry;
        i := i + 1;
      }
      assert deadlines == map[];
      ProgressEnd(orig.deadlines, deadlines, done, clock);
      cut := clock;
    }

    /**
     * `check_ready`: it meets no error. Nothing due at the clock of its start stays behind, and nothing
     * beyond its last reading is taken: both lists are cut at readings between the two.
     */
    method CheckBothLists() returns (ghost cut1: nat, ghost cut2: nat)
      requires Valid()
      modifies this
      ensures Valid() && old(clock) <= cut1 <= cut2 == clock
      ensures me < |old(ready).locals|
      ensures State() == CheckReady(old(State()), cut1, cut2)
      ensures forall k | k in suspend :: cut1 < k
      ensures forall k | k in deadlines :: cut2 < k
    {
      ghost var orig := State();
      hide MidInv, WakeDue, Expire, Timer.Due;
      cut1 := WakeSuspended();
      WakeDueShape(orig.(suspend := Timer.Later(orig.suspend, cut1)), Timer.Due(orig.suspend, cut1));
      cut2 := WakeDeadlines();
    }

    /** Wakes `n` if it waits in a system call; nothing happens otherwise. */
    method WakeByName(n: Name)
      requires Rooted(State()) && Mapped(State())
      modifies this`syscall, this`cells, this`ready
      ensures State() == DoEffect(old(State()), Wake(n))
    {
      EffectIs(State(), Wake(n));
      hide DoEffect;
      if n in syscall {
        match cells[n] {
          case SystemCall(call, _) =>
            Requeue(n, ToSyscall(cells[n], call, Computing).value);
          case _ =>
            assert false;
        }
      }
    }

    method Perform(e: Effect, ghost held: multiset<Name>)
      requires MidInv(State(), clock, held, []) && FreshEffect(State(), e)
      modifies this
      ensures Rooted(old(State())) && clock == old(clock)
      ensures MidInv(State(), clock, held, [])
      ensures State() == DoEffect(old(State()), e)
    {
      hide MidInv, State, DoEffect, SchedulerModel.Submit;
      IsMapped(State(), clock, held, []);
      EffectKeeps(State(), clock, held, e);
      match e {
        case Spawn(n) =>
          EffectIs(State(), e);
          Create(n);
        case Wake(n) =>
          WakeByName(n);
      }
    }

    /** The listeners' reaction to the end of a stretch. */
    method React(es: seq<Effect>, ghost held: multiset<Name>)
      requires MidInv(State(), clock, held, []) && me < |ready.locals| && FreshEffects(State(), es)
      modifies this
      ensures clock == old(clock) && MidInv(State(), clock, held, [])
      ensures State() == DoEffects(old(State()), es)
    {
      hide MidInv, DoEffect;
      var i := 0;
      while i < |es|
        invariant i <= |es| && clock == old(clock) && me < |ready.locals|
        invariant MidInv(State(), clock, held, []) && FreshEffects(State(), es[i..])
        invariant DoEffects(old(State()), es) == DoEffects(State(), es[i..])
      {
        assert es[i..][1..] == es[i + 1..];
        ghost var s0 := State();
        EffectShape(s0, es[i]);
        Perform(es[i], held);
        i := i + 1;
      }
    }

    /** A state change that a hook performs on the running coroutine. */
    method ApplyHook(n: Name, h: HookAct)
      requires n in cells
      modifies this`cells
      ensures State() == SetCell(old(State()), n, HookStep(old(cells)[n], h))
    {
      cells := cells[n := HookStep(cells[n], h)];
    }

    method ActOne(n: Name, a: Act)
      requires MidInv(State(), clock, multiset{n}, []) && n in cells && (a.Do? ==> FreshEffect(State(), a.effect))
      modifies this
      ensures Rooted(old(State())) && clock == old(clock)
      ensures MidInv(State(), clock, multiset{n}, []) && n in State().cells
      ensures State() == ActStep(old(State()), n, a)
    {
      ghost var before := State();
      assert cells == before.cells;
      hide MidInv, State, DoEffect, SetCell;
      IsMapped(before, clock, multiset{n}, []);
      ActKeys(before, n, a);
      match a {
        case Hook(h) =>
          CellStep(before, clock, multiset{n}, [], n, HookStep(before.cells[n], h));
          ApplyHook(n, h);
        case Do(e) =>
          Perform(e, multiset{n});
      }
    }

    /** The acts of the body of `n`: state changes by the hooks, and effects on the scheduler. */
    method Execute(n: Name, acts: seq<Act>)
      requires MidInv(State(), clock, multiset{n}, []) && Rooted(State()) && n in State().cells
      requires FreshActs(State(), n, acts)
      modifies this
      ensures clock == old(clock) && MidInv(State(), clock, multiset{n}, [])
      ensures State() == DoActs(old(State()), n, acts)
      ensures n in State().cells && State().cells[n] == HookRun(old(State()).cells[n], Hooks(acts))
    {
      ghost var orig := State();
      hide MidInv, State, ActStep, HookRun, Hooks;
      ActsKeep(orig, clock, n, acts);
      var i := 0;
      assert acts[0..] == acts;
      while i < |acts|
        invariant i <= |acts| && clock == old(clock) && Rooted(State()) && n in State().cells
        invariant MidInv(State(), clock, multiset{n}, []) && FreshActs(State(), n, acts[i..])
        invariant DoActs(orig, n, acts) == DoActs(State(), n, acts[i..])
      {
        assert acts[i..][0] == acts[i] && acts[i..][1..] == acts[i + 1..];
        ghost var before := State();
        DoActsIs(before, n, acts[i..]);
        CellsAre(n);
        ActOne(n, acts[i]);
        IsMapped(State(), clock, multiset{n}, []);
        i := i + 1;
      }
    }

    lemma CellsAre(n: Name)
      requires n in State().cells
      ensures n in cells
    {
    }

    /** Files a coroutine that came back according to the state it is in. */
    method File(n: Name, st: CoroutineState, now: nat)
      requires me < |ready.locals|
      modifies this`ready, this`suspend, this`deadlines, this`syscall
      ensures State() == Place(old(State()), n, st, now)
    {
      match st {
        case Suspended(t) =>
          if t <= now {
            ready := WorkSteal.PushBack(ready, me, n);
          } else {
            suspend := Timer.Insert(suspend, t, n);
          }
        case SystemCall(_, sub) =>
          if sub.Suspend? {
            deadlines := Timer.Insert(deadlines, sub.until, n);
          }
          syscall := syscall[n := n];
        case _ =>
      }
    }

    /** The first half of `resume_with`: `running()` accepts every runnable coroutine. */
    method Begin(n: Name) returns (t: nat)
      requires MidInv(State(), clock, multiset{n}, []) && n in cells && Runnable(cells[n], clock)
      modifies this
      ensures old(clock) <= t == clock && ToRunning(old(cells)[n], t).Some?
      ensures MidInv(State(), clock, multiset{n}, [])
      ensures State() == SetCell(Report(old(State()), OnResume(n, old(cells)[n])), n, ToRunning(old(cells)[n], t).value)
    {
      ghost var orig, c0 := State(), clock;
      hide MidInv;
      log := log + [OnResume(n, cells[n])];
      t := Now();
      ClockStep(orig, c0, t, multiset{n}, []);
      ReportStep(orig, t, multiset{n}, [], OnResume(n, cells[n]));
      var run := ToRunning(cells[n], t).value;
      CellStep(State(), t, multiset{n}, [], n, run);
      cells := cells[n := run];
    }

    method Tell(n: Name, st: CoroutineState)
      requires HasEnded(st)
      modifies this`cells, this`log
      ensures State() == Conclude(old(State()), n, st)
    {
      cells := cells[n := st];
      log := log + [EndEvent(n, st)];
    }

    method Discard(n: Name)
      modifies this`lost
      ensures State() == Drop(old(State()), n)
    {
      lost := lost + [n];
    }

    /** The listeners are told, they react, and the coroutine goes where its state belongs. */
    method Finish(n: Name, st: CoroutineState, reaction: seq<Effect>) returns (t: nat)
      requires MidInv(State(), clock, multiset{n}, []) && HasEnded(st) && me < |ready.locals|
      requires FreshEffects(Conclude(State(), n, st), reaction)
      modifies this
      ensures old(clock) <= t == clock
      ensures State() == Place(DoEffects(Conclude(old(State()), n, st), reaction), n, st, t)
    {
      ghost var orig := State();
      hide MidInv, DoEffects, FreshEffects, Place, Conclude;
      ConcludeKeeps(orig, clock, n, st);
      ConcludeLost(orig, n, st);
      ghost var held := if st.Complete? || st.Error? then multiset{} else multiset{n};
      Tell(n, st);
      React(reaction, held);
      t := Now();
      File(n, st, t);
    }

    /** Resumes the coroutine just popped; it fails exactly when the body finishes inside a system call. */
    method ResumeOne(n: Name, b: Stretch) returns (ok: bool, ghost now1: nat, ghost now2: nat)
      requires MidInv(State(), clock, multiset{n}, []) && n in cells && Runnable(cells[n], clock)
      requires Unused(NamesOf(b), cells.Keys)
      modifies this
      ensures me < |old(ready).locals| && old(clock) <= now1 <= now2 == clock
      ensures Valid()
      ensures ok == Resume(old(State()), n, now1, b, now2).Ran?
      ensures State() == Resume(old(State()), n, now1, b, now2).sched
      ensures !ok <==> !b.end.Yields? && CellAtEnd(old(cells)[n], now1, b) != Running
      ensures lost == old(lost) + (if ok then [] else [n])
    {
      ghost var orig, c0 := State(), clock;
      assert Shape(orig);
      hide MidInv, Unused, NamesOf, RunBody, FreshStretch, Conclude, Drop, Place, DoEffects, FreshEffects, CellAtEnd;
      now1 := RunStretch(n, b);
      UnusedStretch(orig, n, now1, b);
      ClockStep(orig, c0, now1, multiset{n}, []);
      ReactionIsFresh(orig, n, now1, b);
      var st := AfterBody(cells[n], b.end);
      if st.None? {
        Discard(n);
        now2 := clock;
        ok := false;
      } else {
        ok := true;
        now2 := Finish(n, st.value, b.reaction);
      }
      ResumeKeeps(orig, now1, n, now1, b, now2);
    }

    /** The coroutine starts to run and its body does its acts. */
    method RunStretch(n: Name, b: Stretch) returns (ghost now1: nat)
      requires MidInv(State(), clock, multiset{n}, []) && n in cells && Runnable(cells[n], clock)
      requires Unused(NamesOf(b), cells.Keys)
      modifies this
      ensures old(clock) <= now1 == clock && ToRunning(old(cells)[n], now1).Some? && Shape(old(State()))
      ensures State() == RunBody(old(State()), n, now1, b)
      ensures MidInv(State(), clock, multiset{n}, []) && n in cells && me < |ready.locals|
    {
      ghost var orig, c0 := State(), clock;
      assert Shape(orig);
      hide MidInv, DoActs, FreshActs, HookRun, SetCell, Report, NamesOf, Unused;
      var t1 := Begin(n);
      now1 := t1;
      UnusedStretch(orig, n, t1, b);
      ClockStep(orig, c0, t1, multiset{n}, []);
      RunBodyKeeps(orig, t1, n, t1, b);
      Execute(n, b.acts);
      CellsAre(n);
      StillShaped(State(), clock, multiset{n});
    }

    /**
     * One iteration of the scheduling loop. It sleeps exactly when nothing is ready, and breaks exactly
     * when the resumed body finished inside a system call; then that coroutine is dropped.
     */
    method Iterate(timeout: nat, b: Stretch) returns (r: Progressed, ghost rd: Readings, ghost head: nat)
      requires Valid() && Unused(NamesOf(b), cells.Keys)
      modifies this
      ensures Valid() && clock >= old(clock)
      ensures old(clock) <= head && (r == Slept(0) <==> timeout <= head)
      ensures r.Slept? && head < timeout ==> r.left == timeout - head
      ensures r != Slept(0) ==> head <= rd.cut1 && clock == rd.now2
      ensures r != Slept(0) ==> TookTurn(old(State()), old(clock), rd, b, State(), clock, r)
      ensures r.Slept? && r.left > 0 ==> WorkSteal.Content(ready) == multiset{}
      ensures r == Slept(0) ==> head == clock && State() == old(State())
      ensures r.Broke? ==> !b.end.Yields?
      ensures r.Broke? <==> lost != old(lost)
      ensures cells.Keys <= old(cells).Keys + NewNames(b)
    {
      hide *;
      ghost var orig, c0 := State(), clock;
      var t := Now();
      head := t;
      var left := if t < timeout then timeout - t else 0;
      if left == 0 {
        return Slept(0), Readings(0, 0, 0, 0, 0), head;
      }
      var next, rd0 := ChooseNext();
      TimelySince(orig, c0, head, rd0);
      HandGives(next);
      match next {
        case None =>
          rd := rd0;
          IdleTurn(orig, c0, rd, b, left);
          r := Slept(left);
        case Some(n) =>
          r, rd := ResumeNext(n, b, orig, c0, rd0);
      }
    }

    lemma HandGives(next: Option<Name>)
      requires InHand(State(), clock, next)
      ensures next.Some? ==>
                && MidInv(State(), clock, multiset{next.value}, [])
                && next.value in cells && Runnable(cells[next.value], clock)
      ensures next.None? ==> Valid() && WorkSteal.Content(ready) == multiset{}
    {
      hide MidInv, Runnable, WorkSteal.Content;
    }

    /** Resuming the chosen coroutine completes the turn. */
    method ResumeNext(n: Name, b: Stretch, ghost before: Sched, ghost c0: nat, ghost rd0: Readings)
      returns (r: Progressed, ghost rd: Readings)
      requires Shape(before) && Timely(before, c0, rd0) && rd0.now2 == rd0.cut2 == clock
      requires State() == AtResume(before, rd0) && Chosen(before, rd0) == Some(n)
      requires MidInv(State(), clock, multiset{n}, []) && n in cells && Runnable(cells[n], clock)
      requires Unused(NamesOf(b), cells.Keys)
      modifies this
      ensures Valid() && clock >= old(clock) && !r.Slept?
      ensures TookTurn(before, c0, rd, b, State(), clock, r) && rd.cut1 == rd0.cut1 && clock == rd.now2
      ensures r.Broke? ==> !b.end.Yields?
      ensures r.Broke? <==> lost != old(lost)
      ensures cells.Keys <= old(cells).Keys + NewNames(b)
    {
      ghost var s2 := State();
      hide MidInv, Resume, AtResume, Chosen, Unused, NamesOf, FreshStretch, CellAtEnd, Runnable, TookTurn, NewNames, Shape;
      StillShaped(s2, clock, multiset{n});
      ShapeGives(s2);
      var ok, now1, now2 := ResumeOne(n, b);
      ResumeKeys(s2, n, now1, b, now2);
      UnusedStretch(s2, n, now1, b);
      rd := Readings(rd0.cut1, rd0.cut2, now1, now2, rd0.start);
      SameChoice(before, rd, rd0.now1, rd0.now2);
      ResumedTurn(before, c0, rd, b, n, ok);
      r := if ok then Stepped else Broke;
    }

    /** `check_ready` and the pop: the coroutine to resume, in hand and runnable, or nothing is ready. */
    method ChooseNext() returns (next: Option<Name>, ghost rd: Readings)
      requires Valid()
      modifies this
      ensures Shape(old(State())) && Timely(old(State()), old(clock), rd) && rd.now2 == rd.cut2 == clock
      ensures State() == AtResume(old(State()), rd) && next == Chosen(old(State()), rd)
      ensures InHand(State(), clock, next)
      ensures cells.Keys == old(cells).Keys && lost == old(lost)
    {
      ghost var orig, c0 := State(), clock;
      InvShape(orig, c0);
      hide InHand, MidInv, CheckReady, WorkSteal.PopFront;
      ghost var cut1, cut2 := CheckBothLists();
      CheckReadyShape(orig, cut1, cut2);
      ClockStep(orig, c0, cut1, multiset{}, []);
      CheckReadyKeys(orig, cut1, cut1, cut2);
      ghost var start;
      next, start := PopNext();
      rd := Readings(cut1, cut2, cut2, cut2, start);
    }

    /** The pop of a scheduling turn. */
    method PopNext() returns (next: Option<Name>, ghost start: nat)
      requires Valid()
      modifies this`ready, this`tick
      ensures Shape(old(State())) && start < |old(ready).locals|
      ensures var t := WorkSteal.NextTick(old(tick));
              var p := WorkSteal.PopFront(old(ready), me, t, start);
              State() == old(State()).(ready := p.queues, tick := t) && next == p.item
      ensures InHand(State(), clock, next)
    {
      InvShape(State(), clock);
      hide InHand, MidInv, WorkSteal.PopFront, WorkSteal.NextTick;
      var first: nat :| first < |ready.locals|;
      start := first;
      PopLeaves(State(), clock, first);
      tick := WorkSteal.NextTick(tick);
      var p := WorkSteal.PopFront(ready, me, tick, first);
      ready := p.queues;
      next := p.item;
    }

    /**
     * `try_timeout_schedule` against any finite script of bodies; `heads` are the clock readings at the
     * loop head. Every turn is begun before the deadline. It returns `Ok(0)` exactly when the last
     * reading is at the deadline or past it, `Ok(left)` with the time then left when nothing is ready, and
     * an error only after a body that finished inside a system call; no coroutine is dropped otherwise.
     */
    method TryTimeoutSchedule(timeout: nat, script: seq<Stretch>)
      returns (r: Progressed, ghost run: seq<T.Move>, ghost heads: seq<nat>)
      requires Valid() && Unused(AllNames(script), cells.Keys)
      modifies this
      ensures Valid() && clock >= old(clock)
      ensures LoopEnds(old(State()), old(clock), timeout, run, heads, script, State(), r)
      ensures r.Slept? && r.left > 0 ==> WorkSteal.Content(ready) == multiset{}
      ensures r == Slept(0) ==> timeout <= clock
      ensures r.Broke? <==> lost != old(lost)
    {
      ghost var orig, c0 := State(), clock;
      r, run, heads := Stepped, [], [];
      LoopBegins(orig, c0, timeout, script);
      hide MidInv, WorkSteal.Content, NamesOf, Unused, T.LegalRun, T.Run, TookTurn, Looping, LoopEnds;
      var i := 0;
      while i < |script|
        invariant i == |run| <= |script| && clock >= old(clock)
        invariant Valid() && lost == old(lost)
        invariant Unused(AllNames(script[i..]), cells.Keys)
        invariant Looping(orig, c0, timeout, run, heads, script, State(), clock)
      {
        var b := script[i];
        assert script[i..][1..] == script[i + 1..];
        ghost var used, s, c := cells.Keys, State(), clock;
        UnusedSplit(NamesOf(b), AllNames(script[i + 1..]), used, used);
        ghost var rd, head;
        r, rd, head := Iterate(timeout, b);
        if r == Slept(0) {
          LoopTimesOut(orig, c0, timeout, run, heads, script, s, c, head);
          heads := heads + [head];
          return;
        }
        if !r.Stepped? {
          LoopStops(orig, c0, timeout, run, heads, script, s, c, head, rd, State(), r);
          run, heads := run + [T.MTurn(rd, b)], heads + [head];
          return;
        }
        LoopGoesOn(orig, c0, timeout, run, heads, script, s, c, head, rd, State());
        run, heads := run + [T.MTurn(rd, b)], heads + [head];
        UnusedSplit(NamesOf(b), AllNames(script[i + 1..]), used, cells.Keys);
        i := i + 1;
      }
      LoopRunsOut(orig, c0, timeout, run, heads, script, State(), clock);
      return Stepped, run, heads;
    }
  }
}
