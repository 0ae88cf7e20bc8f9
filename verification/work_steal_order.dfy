// The order in which items leave the work-stealing queue: every worker is a FIFO, spilling and stealing
// take the oldest items, and the scan for a victim goes around once.
module WorkStealOrder {
  import opened Constants
  import opened WorkSteal

  // ---------- one operation ----------

  /** Unless it is the turn of a nonempty shared queue, a worker pops the oldest of its own items. */
  lemma OwnFirst<T>(q: Queues<T>, me: nat, tick: nat, start: nat, x: T, rest: seq<T>)
    requires me < |q.locals| && 1 <= q.capacity && q.locals[me] == [x] + rest
    requires tick % 61 != 0 || q.shared == []
    ensures PopFront(q, me, tick, start) == Popped(q.(locals := q.locals[me := rest]), Some(x))
  {
    assert q.locals[me][1..] == rest;
  }

  /** On every 61st tick the oldest shared item goes first. */
  lemma SharedTurn<T>(q: Queues<T>, me: nat, tick: nat, start: nat, x: T, rest: seq<T>)
    requires me < |q.locals| && 1 <= q.capacity && q.shared == [x] + rest
    requires tick % 61 == 0
    ensures PopFront(q, me, tick, start) == Popped(q.(shared := rest), Some(x))
  {
    assert q.shared[1..] == rest;
  }

  /**
   * A push goes to the back of the worker. If that is full, its older half goes to the shared queue in
   * order and the pushed item follows.
   */
  lemma PushOrder<T>(q: Queues<T>, me: nat, x: T)
    requires WellFormed(q) && me < |q.locals|
    ensures var q' := PushBack(q, me, x); var l, l' := q.locals[me], q'.locals[me];
            && q'.capacity == q.capacity && q'.locals == q.locals[me := l']
            && if |l| < q.capacity then l' == l + [x] && q'.shared == q.shared
               else exists spilled :: |spilled| == |l| / 2 && spilled + l' == l && q'.shared == q.shared + spilled + [x]
  {
    var l := q.locals[me];
    var spilled := l[..|l| / 2];
    assert spilled + l[|l| / 2..] == l;
  }

  /**
   * A steal takes the older half of the victim, rounded up, as far as there is room: first the item that
   * is popped, then those that the thief keeps, then those that the victim keeps.
   */
  lemma StealOrder<T>(q: Queues<T>, me: nat, v: nat)
    requires WellFormed(q) && me < |q.locals| && v < |q.locals| && q.locals[me] == [] && q.locals[v] != []
    ensures var p := TakeStolen(q, me, v); var kept, left := p.queues.locals[me], p.queues.locals[v];
            && p.item.Some? && q.locals[v] == [p.item.value] + kept + left
            && (1 + |kept| == |left| || 1 + |kept| == |left| + 1 || (1 + |kept| == q.capacity && |kept| < |left|))
            && p.queues == q.(locals := q.locals[me := kept][v := left])
  {
    var l := q.locals[v];
    var n := StealCount(|l|, q.capacity);
    assert l == [l[0]] + l[1..n] + l[n..];
    assert q.locals[v := l[n..]][me := l[1..n]] == q.locals[me := l[1..n]][v := l[n..]];
  }

  /** The scan robs the first nonempty worker that it meets from `start` on (`CyclicValue` says which those are). */
  lemma {:induction false} VictimIsFirst<T>(ls: seq<seq<T>>, start: nat, j: nat) returns (k: nat)
    requires ls != [] && j <= |ls| && Victim(ls, start, j).Some?
    ensures j <= k < |ls| && Victim(ls, start, j).value == Cyclic(start, k, |ls|)
    ensures forall i | j <= i < k :: ls[Cyclic(start, i, |ls|)] == []
    decreases |ls| - j
  {
    hide Cyclic;
    if ls[Cyclic(start, j, |ls|)] != [] {
      k := j;
    } else {
      k := VictimIsFirst(ls, start, j + 1);
    }
  }

  // ---------- one thief and one victim ----------

  /** Nothing is shared, and at most `me` and `v` have items. */
  ghost predicate Alone<T>(q: Queues<T>, me: nat, v: nat) {
    && WellFormed(q) && me < |q.locals| && v < |q.locals| && me != v && q.shared == []
    && forall i | 0 <= i < |q.locals| && i != me && i != v :: q.locals[i] == []
  }

  function Pair<T>(q: Queues<T>, me: nat, v: nat): seq<T>
    requires me < |q.locals| && v < |q.locals|
  {
    q.locals[me] + q.locals[v]
  }

  /** `p` takes the first of the items of both, and leaves the rest in order. */
  ghost predicate TakesFirst<T>(q: Queues<T>, me: nat, v: nat, p: Popped<T>)
    requires me < |q.locals| && v < |q.locals|
  {
    && |p.queues.locals| == |q.locals|
    && var all := Pair(q, me, v);
       if all == [] then p.item.None? && Pair(p.queues, me, v) == []
       else p.item == Some(all[0]) && Pair(p.queues, me, v) == all[1..]
  }

  lemma OwnTakesFirst<T>(q: Queues<T>, me: nat, v: nat)
    requires Alone(q, me, v) && q.locals[me] != []
    ensures TakesFirst(q, me, v, TakeOwn(q, me)) && Alone(TakeOwn(q, me).queues, me, v)
  {
  }

  lemma StealTakesFirst<T>(q: Queues<T>, me: nat, v: nat)
    requires Alone(q, me, v) && q.locals[me] == [] && q.locals[v] != []
    ensures TakesFirst(q, me, v, TakeStolen(q, me, v)) && Alone(TakeStolen(q, me, v).queues, me, v)
  {
    StealOrder(q, me, v);
    hide TakeStolen;
  }

  lemma PairPop<T>(q: Queues<T>, me: nat, v: nat, tick: nat, start: nat)
    requires Alone(q, me, v) && start < |q.locals|
    ensures var p := PopFront(q, me, tick, start);
            Alone(p.queues, me, v) && TakesFirst(q, me, v, p)
  {
    if q.locals[me] != [] {
      OwnTakesFirst(q, me, v);
    } else {
      ScanIsComplete(q.locals, start);
      if q.locals[v] != [] {
        assert Victim(q.locals, start, 0) == Some(v);
        StealTakesFirst(q, me, v);
        hide TakesFirst;
      }
      hide TakeStolen;
    }
    hide TakeOwn;
  }

  /** Pops of worker `me`, one for each tick and start of a scan. */
  ghost function PopAll<T>(q: Queues<T>, me: nat, pops: seq<(nat, nat)>): seq<Option<T>>
    requires me < |q.locals| && 1 <= q.capacity
    decreases pops
  {
    if pops == [] then [] else
    var p := PopFront(q, me, pops[0].0, pops[0].1);
    [p.item] + if me < |p.queues.locals| && 1 <= p.queues.capacity then PopAll(p.queues, me, pops[1..]) else []
  }

  /**
   * A worker that empties itself and one sibling gets its own items and then the sibling's, all in the
   * order they were pushed, however the ticks and the scans fall.
   */
  lemma {:induction false} DrainInOrder<T>(q: Queues<T>, me: nat, v: nat, pops: seq<(nat, nat)>)
    requires Alone(q, me, v) && forall o <- pops :: o.1 < |q.locals|
    ensures var items := PopAll(q, me, pops); var all := Pair(q, me, v);
            && |items| == |pops|
            && forall k | 0 <= k < |pops| :: items[k] == if k < |all| then Some(all[k]) else None
    decreases pops
  {
    if pops != [] {
      var p := PopFront(q, me, pops[0].0, pops[0].1);
      assert pops[0] in pops;
      PairPop(q, me, v, pops[0].0, pops[0].1);
      hide PopFront, Alone, Pair;
      DrainInOrder(p.queues, me, v, pops[1..]);
    }
  }

  // ---------- over every run ----------

  /** What came to a worker and what went from it only grows. */
  lemma ApplyGrows<T>(s: System<T>, op: Op<T>, j: nat)
    requires Consistent(s) && Legal(s, op) && j < |s.queues.locals|
    ensures Consistent(Apply(s, op)) && |Apply(s, op).queues.locals| == |s.queues.locals|
    ensures s.came[j] <= Apply(s, op).came[j] && s.went[j] <= Apply(s, op).went[j]
  {
    ApplyConsistent(s, op);
    hide PopFront, PushBack, Content, GoneFrom, NewIn, InPop;
    if op.LocalPop? {
      SharedShrinks(s.queues, op.worker, NextTick(s.ticks[op.worker]), op.start);
    } else if op.LocalPush? {
      SharedGrows(s.queues, op.worker, op.x);
    }
  }

  lemma {:induction false} RunGrows<T>(s: System<T>, ops: seq<Op<T>>, j: nat)
    requires Consistent(s) && LegalRun(s, ops) && j < |s.queues.locals|
    ensures var s' := Run(s, ops);
            && Consistent(s') && |s'.queues.locals| == |s.queues.locals|
            && s.came[j] <= s'.came[j] && s.went[j] <= s'.went[j]
    decreases ops
  {
    if ops != [] {
      ApplyGrows(s, ops[0], j);
      hide Consistent, Apply, Legal;
      RunGrows(Apply(s, ops[0]), ops[1..], j);
    }
  }

  /** Item `i` of a queue `l` that has become `l'`: gone in its order, or still queued, that much further on. */
  ghost predicate GoneInOrder<T>(went: seq<T>, l: seq<T>, went': seq<T>, l': seq<T>, i: nat)
    requires i < |l|
  {
    && |went| <= |went'|
    && var gone := |went'| - |went|;
       if i < gone then went'[|went| + i] == l[i] else i - gone < |l'| && l'[i - gone] == l[i]
  }

  lemma LineOrder<T>(came: seq<T>, went: seq<T>, l: seq<T>, came': seq<T>, went': seq<T>, l': seq<T>, i: nat)
    requires came == went + l && came' == went' + l' && came <= came' && went <= went' && i < |l|
    ensures GoneInOrder(went, l, went', l', i)
  {
    assert came'[|went| + i] == came[|went| + i] == l[i];
  }

  /** Whatever is pushed, popped, spilled and stolen: the items of a worker leave it in order. */
  lemma LeavesInOrder<T>(s: System<T>, ops: seq<Op<T>>, j: nat, i: nat)
    requires Consistent(s) && LegalRun(s, ops) && j < |s.queues.locals| && i < |s.queues.locals[j]|
    ensures var s' := Run(s, ops);
            && |s'.queues.locals| == |s.queues.locals| == |s'.went| == |s.went|
            && GoneInOrder(s.went[j], s.queues.locals[j], s'.went[j], s'.queues.locals[j], i)
  {
    RunGrows(s, ops, j);
    var s' := Run(s, ops);
    hide Run, LegalRun, Content, GoneInOrder;
    LineOrder(s.came[j], s.went[j], s.queues.locals[j], s'.came[j], s'.went[j], s'.queues.locals[j], i);
  }

  /** The next pop of worker `me` is from its own queue. */
  ghost predicate PopsOwn<T>(s: System<T>, me: nat)
    requires Consistent(s) && me < |s.queues.locals|
  {
    s.queues.locals[me] != [] && (NextTick(s.ticks[me]) % 61 != 0 || s.queues.shared == [])
  }

  ghost function PopOf<T>(s: System<T>, me: nat, start: nat): Popped<T>
    requires Consistent(s) && me < |s.queues.locals|
  {
    PopFront(s.queues, me, NextTick(s.ticks[me]), start)
  }

  /** The arrival that the next pop from the own queue returns: the first that has not gone. */
  lemma OwnPopIs<T>(s: System<T>, me: nat, start: nat)
    requires Consistent(s) && me < |s.queues.locals| && PopsOwn(s, me)
    ensures |s.went[me]| < |s.came[me]| && PopOf(s, me, start).item == Some(s.came[me][|s.went[me]|])
    ensures var s' := Apply(s, LocalPop(me, start));
            && |s'.queues.locals| == |s.queues.locals| && |s'.went| == |s.went|
            && |s'.went[me]| == |s.went[me]| + 1
  {
    var l := s.queues.locals[me];
    OwnFirst(s.queues, me, NextTick(s.ticks[me]), start, l[0], l[1..]);
    assert s.came[me] == s.went[me] + l;
    hide PopFront, Content;
  }

  /**
   * Two pops of a worker from its own queue, whatever happens between them, return what came to it in
   * the order it came.
   */
  lemma OwnPopsInOrder<T>(s: System<T>, me: nat, start: nat, ops: seq<Op<T>>, start': nat)
    requires Consistent(s) && me < |s.queues.locals| && PopsOwn(s, me)
    requires Consistent(Apply(s, LocalPop(me, start))) && LegalRun(Apply(s, LocalPop(me, start)), ops)
    requires var s' := Run(Apply(s, LocalPop(me, start)), ops);
             Consistent(s') && me < |s'.queues.locals| && PopsOwn(s', me)
    ensures var s' := Run(Apply(s, LocalPop(me, start)), ops);
            && |s.went[me]| < |s'.went[me]| < |s'.came[me]|
            && PopOf(s, me, start).item == Some(s'.came[me][|s.went[me]|])
            && PopOf(s', me, start').item == Some(s'.came[me][|s'.went[me]|])
  {
    var s1 := Apply(s, LocalPop(me, start));
    ApplyGrows(s, LocalPop(me, start), me);
    OwnPopIs(s, me, start);
    RunGrows(s1, ops, me);
    OwnPopIs(Run(s1, ops), me, start');
  }
}
