// The work-stealing queue of open-coroutine-queue/src/work_steal.rs. Every operation is atomic.
// `Injector` and `st3::fifo::Worker` are FIFO sequences; a worker holds at most `capacity` items.
module WorkSteal {
  import opened Constants
  import Rand

  const TICK_LIMIT := 0x1_0000_0000
  const FAIR_PERIOD := 61

  datatype Queues<T> = Queues(shared: seq<T>, locals: seq<seq<T>>, capacity: nat)

  datatype Popped<T> = Popped(queues: Queues<T>, item: Option<T>)

  ghost predicate WellFormed<T>(q: Queues<T>) {
    && 1 <= q.capacity
    && q.locals != []
    && forall i | 0 <= i < |q.locals| :: |q.locals[i]| <= q.capacity
  }

  ghost function Bag<T>(ls: seq<seq<T>>): multiset<T> {
    if ls == [] then multiset{} else multiset(ls[0]) + Bag(ls[1..])
  }

  /** Everything queued anywhere. */
  ghost function Content<T>(q: Queues<T>): multiset<T> {
    multiset(q.shared) + Bag(q.locals)
  }

  ghost function ItemsOf<T>(r: Option<T>): multiset<T> {
    match r
    case None => multiset{}
    case Some(x) => multiset{x}
  }

  /** `LocalQueue::push_back` on worker `me`. */
  function PushBack<T>(q: Queues<T>, me: nat, x: T): Queues<T>
    requires me < |q.locals|
  {
    var l := q.locals[me];
    if |l| < q.capacity then
      q.(locals := q.locals[me := l + [x]])
    else
      var half := |l| / 2;
      q.(shared := q.shared + l[..half] + [x], locals := q.locals[me := l[half..]])
  }

  function Cyclic(start: nat, j: nat, n: nat): (i: nat)
    requires 0 < n
    ensures i < n
  {
    (start + j) % n
  }

  /** The first nonempty worker met by the cyclic scan from `start`, after `j` empty ones. */
  function Victim<T>(ls: seq<seq<T>>, start: nat, j: nat): (v: Option<nat>)
    requires ls != [] && j <= |ls|
    ensures v.Some? ==> v.value < |ls| && ls[v.value] != []
    decreases |ls| - j
  {
    if j == |ls| then None
    else if ls[Cyclic(start, j, |ls|)] != [] then Some(Cyclic(start, j, |ls|))
    else Victim(ls, start, j + 1)
  }

  /** How many items a steal moves: bounded by the thief's room and by half of the victim, rounded up. */
  function StealCount(victim: nat, room: nat): (n: nat)
    ensures n <= victim && n <= room && 2 * n <= victim + 1
    ensures n == room || victim <= 2 * n
  {
    var half := (victim + 1) / 2;
    if room < half then room else half
  }

  function TakeShared<T>(q: Queues<T>): Popped<T>
    requires q.shared != []
  {
    Popped(q.(shared := q.shared[1..]), Some(q.shared[0]))
  }

  function TakeOwn<T>(q: Queues<T>, me: nat): Popped<T>
    requires me < |q.locals| && q.locals[me] != []
  {
    Popped(q.(locals := q.locals[me := q.locals[me][1..]]), Some(q.locals[me][0]))
  }

  /** Moves the older half of worker `v` to the empty worker `me` and pops its first item there. */
  function TakeStolen<T>(q: Queues<T>, me: nat, v: nat): Popped<T>
    requires me < |q.locals| && v < |q.locals| && q.locals[v] != [] && 1 <= q.capacity
  {
    var l := q.locals[v];
    var n := StealCount(|l|, q.capacity);
    Popped(q.(locals := q.locals[v := l[n..]][me := l[1..n]]), Some(l[0]))
  }

  /** `LocalQueue::pop_front` on worker `me` once the tick has been advanced to `tick`. */
  function PopFront<T>(q: Queues<T>, me: nat, tick: nat, start: nat): Popped<T>
    requires me < |q.locals|
    requires 1 <= q.capacity
  {
    if tick % FAIR_PERIOD == 0 && q.shared != [] then TakeShared(q)
    else if q.locals[me] != [] then TakeOwn(q, me)
    else
      match Victim(q.locals, start, 0)
      case Some(v) => TakeStolen(q, me, v)
      case None => if q.shared == [] then Popped(q, None) else TakeShared(q)
  }

  function NextTick(v: nat): (t: nat)
    ensures t < TICK_LIMIT
  {
    (v + 1) % TICK_LIMIT
  }

  // ---------- conservation and completeness of the scan ----------

  lemma AddBoth<T>(m: multiset<T>, a: multiset<T>, b: multiset<T>, c: multiset<T>, d: multiset<T>)
    requires a + b == c + d
    ensures (m + a) + b == (m + c) + d
  {
    assert (m + a) + b == m + (a + b);
    assert (m + c) + d == m + (c + d);
  }

  /** Replacing one part `o` of a bag by `o'` changes the bag by the same difference `e`. */
  lemma Replace<T>(bag: multiset<T>, bag': multiset<T>, o: multiset<T>, o': multiset<T>, e: multiset<T>)
    requires bag' + o == bag + o' && o' + e == o
    ensures bag == bag' + e
  {
    assert bag' + (o' + e) == (bag' + e) + o';
    assert forall x :: (bag + o')[x] == bag[x] + o'[x];
    assert forall x :: ((bag' + e) + o')[x] == (bag' + e)[x] + o'[x];
  }

  lemma {:induction false} BagUpdate<T>(ls: seq<seq<T>>, i: nat, s: seq<T>)
    requires i < |ls|
    ensures Bag(ls[i := s]) + multiset(ls[i]) == Bag(ls) + multiset(s)
  {
    if i == 0 {
      assert ls[0 := s][1..] == ls[1..];
    } else {
      BagUpdate(ls[1..], i - 1, s);
      assert ls[i := s][1..] == ls[1..][i - 1 := s];
      AddBoth(multiset(ls[0]), Bag(ls[1..][i - 1 := s]), multiset(ls[i]), Bag(ls[1..]), multiset(s));
    }
  }

  /** Taking the first `n` items of one worker out of the bag. */
  lemma BagTake<T>(ls: seq<seq<T>>, i: nat, n: nat)
    requires i < |ls| && n <= |ls[i]|
    ensures Bag(ls) == Bag(ls[i := ls[i][n..]]) + multiset(ls[i][..n])
  {
    var l := ls[i];
    BagUpdate(ls, i, l[n..]);
    assert l == l[..n] + l[n..];
    assert multiset(l) == multiset(l[n..]) + multiset(l[..n]);
    Replace(Bag(ls), Bag(ls[i := l[n..]]), multiset(l), multiset(l[n..]), multiset(l[..n]));
  }

  /** Appending items to one worker adds them to the bag. */
  lemma BagPut<T>(ls: seq<seq<T>>, i: nat, xs: seq<T>)
    requires i < |ls|
    ensures Bag(ls[i := ls[i] + xs]) == Bag(ls) + multiset(xs)
  {
    var l := ls[i];
    BagUpdate(ls, i, l + xs);
    assert multiset(l + xs) == multiset(l) + multiset(xs);
    Replace(Bag(ls[i := l + xs]), Bag(ls), multiset(l + xs), multiset(l), multiset(xs));
  }

  lemma {:induction false} BagMember<T>(ls: seq<seq<T>>, i: nat)
    requires i < |ls|
    ensures multiset(ls[i]) <= Bag(ls)
  {
    if i > 0 {
      BagMember(ls[1..], i - 1);
    }
  }

  lemma {:induction false} BagEmpty<T>(ls: seq<seq<T>>)
    requires forall i | 0 <= i < |ls| :: ls[i] == []
    ensures Bag(ls) == multiset{}
  {
    if ls != [] {
      BagEmpty(ls[1..]);
    }
  }

  /** The scan wraps around once: `% n` folds the second lap back onto the first. */
  lemma CyclicValue(start: nat, j: nat, n: nat)
    requires start < n && j < n
    ensures Cyclic(start, j, n) == if start + j < n then start + j else start + j - n
  {
    var a := start + j;
    var q, r := a / n, a % n;
    assert a == q * n + r;
    if q == 0 {
      assert q * n == 0;
    } else if q >= 2 {
      MulMonotone(2, q, n);
    }
  }

  lemma MulMonotone(x: nat, y: nat, n: nat)
    requires x <= y
    ensures x * n <= y * n
  {
  }

  /** From any start, the cyclic scan reaches every index within one lap. */
  lemma ScanReaches(start: nat, k: nat, n: nat) returns (j: nat)
    requires start < n && k < n
    ensures j < n && Cyclic(start, j, n) == k
  {
    j := if start <= k then k - start else n - start + k;
    CyclicValue(start, j, n);
  }

  lemma {:induction false} VictimNone<T>(ls: seq<seq<T>>, start: nat, j: nat)
    requires ls != [] && j <= |ls|
    requires Victim(ls, start, j).None?
    ensures forall i | j <= i < |ls| :: ls[Cyclic(start, i, |ls|)] == []
    decreases |ls| - j
  {
    if j < |ls| {
      VictimNone(ls, start, j + 1);
    }
  }

  /** The scan comes back empty-handed only if every worker is empty, wherever it started. */
  lemma ScanIsComplete<T>(ls: seq<seq<T>>, start: nat)
    requires start < |ls|
    ensures Victim(ls, start, 0).None? <==> forall i | 0 <= i < |ls| :: ls[i] == []
  {
    if Victim(ls, start, 0).None? {
      VictimNone(ls, start, 0);
      forall i | 0 <= i < |ls| ensures ls[i] == [] {
        var j := ScanReaches(start, i, |ls|);
      }
    }
  }

  /** Pushing adds the item and nothing else, also when half of the worker spills to the shared queue. */
  lemma PushConserves<T>(q: Queues<T>, me: nat, x: T)
    requires WellFormed(q) && me < |q.locals|
    ensures WellFormed(PushBack(q, me, x))
    ensures Content(PushBack(q, me, x)) == Content(q) + multiset{x}
  {
    var l := q.locals[me];
    var half := |l| / 2;
    if |l| < q.capacity {
      BagPut(q.locals, me, [x]);
    } else {
      BagTake(q.locals, me, half);
    }
  }

  /** A pop removes exactly the item it returns and leaves the shape of the queues alone. */
  ghost predicate Exact<T>(q: Queues<T>, p: Popped<T>) {
    && WellFormed(p.queues)
    && |p.queues.locals| == |q.locals|
    && p.queues.capacity == q.capacity
    && Content(q) == Content(p.queues) + ItemsOf(p.item)
  }

  lemma TakeSharedExact<T>(q: Queues<T>)
    requires WellFormed(q) && q.shared != []
    ensures Exact(q, TakeShared(q))
  {
    assert q.shared == [q.shared[0]] + q.shared[1..];
  }

  lemma TakeOwnExact<T>(q: Queues<T>, me: nat)
    requires WellFormed(q) && me < |q.locals| && q.locals[me] != []
    ensures Exact(q, TakeOwn(q, me))
  {
    BagTake(q.locals, me, 1);
    assert q.locals[me][..1] == [q.locals[me][0]];
  }

  lemma StealConserves<T>(ls: seq<seq<T>>, me: nat, v: nat, n: nat)
    requires me < |ls| && v < |ls| && ls[me] == [] && 1 <= n <= |ls[v]|
    ensures Bag(ls) == Bag(ls[v := ls[v][n..]][me := ls[v][1..n]]) + multiset{ls[v][0]}
  {
    var l := ls[v];
    assert v != me;
    BagTake(ls, v, n);
    assert l[..n] == [l[0]] + l[1..n];
    var rest := ls[v := l[n..]];
    BagPut(rest, me, l[1..n]);
    assert rest[me] + l[1..n] == l[1..n];
  }

  /** A steal moves at least one item, fills no worker beyond its capacity and loses nothing. */
  lemma TakeStolenExact<T>(q: Queues<T>, me: nat, v: nat)
    requires WellFormed(q) && me < |q.locals| && v < |q.locals|
    requires q.locals[me] == [] && q.locals[v] != []
    ensures Exact(q, TakeStolen(q, me, v))
  {
    StealConserves(q.locals, me, v, StealCount(|q.locals[v]|, q.capacity));
  }

  /** Every `pop_front` takes exactly the item it returns, whichever queue that came from. */
  lemma PopConserves<T>(q: Queues<T>, me: nat, tick: nat, start: nat)
    requires WellFormed(q) && me < |q.locals|
    ensures Exact(q, PopFront(q, me, tick, start))
  {
    hide TakeShared, TakeOwn, TakeStolen, Bag;
    if q.shared != [] {
      TakeSharedExact(q);
    }
    if q.locals[me] != [] {
      TakeOwnExact(q, me);
    } else if Victim(q.locals, start, 0).Some? {
      TakeStolenExact(q, me, Victim(q.locals, start, 0).value);
    }
  }

  /** `pop_front` returns `None` if and only if nothing is queued anywhere. */
  lemma PopNoneIffEmpty<T>(q: Queues<T>, me: nat, tick: nat, start: nat)
    requires WellFormed(q) && me < |q.locals| && start < |q.locals|
    ensures PopFront(q, me, tick, start).item.None? <==> Content(q) == multiset{}
  {
    hide Bag;
    PopConserves(q, me, tick, start);
    ScanIsComplete(q.locals, start);
    var r := PopFront(q, me, tick, start).item;
    if r.None? {
      BagEmpty(q.locals);
    } else {
      assert r.value in Content(q);
    }
  }

  // ---------- the documented order ----------

  /**
   * The documentation says that a worker with an empty queue tries the shared queue before its
   * siblings. It does so if and only if it is the turn of the shared queue or all siblings are empty.
   */
  lemma SharedBeforeSiblingsIff<T>(q: Queues<T>, me: nat, tick: nat, start: nat)
    requires WellFormed(q) && me < |q.locals| && start < |q.locals|
    requires q.locals[me] == [] && q.shared != []
    ensures PopFront(q, me, tick, start) == TakeShared(q) <==>
            tick % FAIR_PERIOD == 0 || forall i | 0 <= i < |q.locals| :: q.locals[i] == []
  {
    ScanIsComplete(q.locals, start);
    if Victim(q.locals, start, 0).Some? {
      var v := Victim(q.locals, start, 0).value;
      assert TakeStolen(q, me, v).queues.shared == q.shared;
      assert |TakeShared(q).queues.shared| < |q.shared|;
    }
  }

  /** A sibling's item comes out although one is shared. */
  lemma SiblingBeforeShared()
    ensures var q := Queues([7], [[], [8]], 4);
            WellFormed(q) && PopFront(q, 0, 1, 0).item == Some(8) && PopFront(q, 0, 1, 0).queues.shared == [7]
  {
    var q := Queues([7], [[], [8]], 4);
    assert Victim(q.locals, 0, 0) == Some(1) by {
      assert Cyclic(0, 0, 2) == 0 && Cyclic(0, 1, 2) == 1;
      assert Victim(q.locals, 0, 0) == Victim(q.locals, 0, 1);
    }
  }

  // ---------- runs of the whole queue system ----------

  datatype Op<T> =
    | GlobalPush(x: T)
    | GlobalPop
    | LocalPush(worker: nat, x: T)
    | LocalPop(worker: nat, start: nat)

  /**
   * The queues with the tick of every worker, and the history of the run: what was pushed and popped,
   * what entered and left the shared queue, and what came to and went from every worker, in order.
   */
  datatype System<T> = System(
    queues: Queues<T>, ticks: seq<nat>,
    given: multiset<T>, got: multiset<T>, entered: seq<T>, left: seq<T>,
    came: seq<seq<T>>, went: seq<seq<T>>)

  ghost predicate Legal<T>(s: System<T>, op: Op<T>) {
    match op
    case GlobalPush(_) => true
    case GlobalPop => true
    case LocalPush(i, _) => i < |s.queues.locals|
    case LocalPop(i, _) => i < |s.queues.locals|
  }

  ghost predicate Consistent<T>(s: System<T>) {
    && WellFormed(s.queues)
    && |s.ticks| == |s.queues.locals|
    && (forall i | 0 <= i < |s.ticks| :: s.ticks[i] < TICK_LIMIT)
    && s.given == s.got + Content(s.queues)
    && s.entered == s.left + s.queues.shared
    && InLine(s.queues.locals, s.came, s.went)
  }

  /** Every worker is a FIFO: what came is what went, and then what is queued. */
  ghost predicate InLine<T>(locals: seq<seq<T>>, came: seq<seq<T>>, went: seq<seq<T>>) {
    |came| == |went| == |locals| && forall j | 0 <= j < |locals| :: came[j] == went[j] + locals[j]
  }

  /** What is new at the back of a queue that was `l`. */
  function NewIn<T>(l: seq<T>, l': seq<T>): seq<T> {
    if |l| <= |l'| then l'[|l|..] else []
  }

  /** What is missing at the front of a queue that was `l`. */
  function GoneFrom<T>(l: seq<T>, l': seq<T>): seq<T> {
    if |l'| <= |l| then l[..|l| - |l'|] else []
  }

  /** Worker `j` in the middle of a pop of worker `i`: a stolen item comes in before it is popped. */
  ghost function InPop<T>(q: Queues<T>, p: Popped<T>, i: nat, j: nat): seq<T>
    requires j < |q.locals| == |p.queues.locals|
  {
    if j == i && q.locals[j] == [] && p.item.Some? && p.queues.shared == q.shared
    then [p.item.value] + p.queues.locals[j] else q.locals[j]
  }

  ghost function Apply<T>(s: System<T>, op: Op<T>): System<T>
    requires Consistent(s) && Legal(s, op)
  {
    match op
    case GlobalPush(x) =>
      s.(queues := s.queues.(shared := s.queues.shared + [x]),
         given := s.given + multiset{x}, entered := s.entered + [x])
    case GlobalPop =>
      if s.queues.shared == [] then s else
      s.(queues := s.queues.(shared := s.queues.shared[1..]),
         got := s.got + multiset{s.queues.shared[0]}, left := s.left + [s.queues.shared[0]])
    case LocalPush(i, x) =>
      var q := PushBack(s.queues, i, x);
      SharedGrows(s.queues, i, x);
      s.(queues := q, given := s.given + multiset{x},
         entered := s.entered + q.shared[|s.queues.shared|..],
         came := s.came[i := s.came[i] + NewIn(s.queues.locals[i], q.locals[i])],
         went := s.went[i := s.went[i] + GoneFrom(s.queues.locals[i], q.locals[i])])
    case LocalPop(i, start) =>
      var t := NextTick(s.ticks[i]);
      var p := PopFront(s.queues, i, t, start);
      SharedShrinks(s.queues, i, t, start);
      var gone := |s.queues.shared| - |p.queues.shared|;
      s.(queues := p.queues, ticks := s.ticks[i := t],
         got := s.got + ItemsOf(p.item), left := s.left + s.queues.shared[..gone],
         came := PopCame(s.came, s.queues, p, i), went := PopWent(s.went, s.queues, p, i))
  }

  ghost function PopCame<T>(came: seq<seq<T>>, q: Queues<T>, p: Popped<T>, i: nat): (r: seq<seq<T>>)
    requires |came| == |q.locals| == |p.queues.locals|
    ensures |r| == |came| && forall j | 0 <= j < |r| :: r[j] == came[j] + NewIn(q.locals[j], InPop(q, p, i, j))
  {
    seq(|came|, j requires 0 <= j < |came| => came[j] + NewIn(q.locals[j], InPop(q, p, i, j)))
  }

  ghost function PopWent<T>(went: seq<seq<T>>, q: Queues<T>, p: Popped<T>, i: nat): (r: seq<seq<T>>)
    requires |went| == |q.locals| == |p.queues.locals|
    ensures |r| == |went|
    ensures forall j | 0 <= j < |r| :: r[j] == went[j] + GoneFrom(InPop(q, p, i, j), p.queues.locals[j])
  {
    seq(|went|, j requires 0 <= j < |went| => went[j] + GoneFrom(InPop(q, p, i, j), p.queues.locals[j]))
  }

  /** A pop takes only from the front of a worker, and brings stolen items to the back of one. */
  lemma PopInLine<T>(q: Queues<T>, i: nat, tick: nat, start: nat, j: nat)
    requires WellFormed(q) && i < |q.locals| && j < |q.locals|
    ensures var p := PopFront(q, i, tick, start);
            && |p.queues.locals| == |q.locals|
            && q.locals[j] <= InPop(q, p, i, j)
            && InPop(q, p, i, j) == GoneFrom(InPop(q, p, i, j), p.queues.locals[j]) + p.queues.locals[j]
  {
    hide Victim, StealCount;
    var v := Victim(q.locals, start, 0);
    if q.locals[i] == [] && v.Some? {
      var l := q.locals[v.value];
      var n := StealCount(|l|, q.capacity);
      assert l == l[..n] + l[n..];
    }
  }

  /** Keeping the lines over a change of the workers from `ls` through `mid` to `ls'`. */
  lemma LineStep<T>(came: seq<T>, went: seq<T>, l: seq<T>, mid: seq<T>, l': seq<T>)
    requires came == went + l && l <= mid && mid == GoneFrom(mid, l') + l'
    ensures came + NewIn(l, mid) == (went + GoneFrom(mid, l')) + l'
  {
    assert l + NewIn(l, mid) == mid;
    assert came + NewIn(l, mid) == went + (l + NewIn(l, mid));
  }

  /** The shared queue loses at most its first item to a pop. */
  lemma SharedShrinks<T>(q: Queues<T>, me: nat, tick: nat, start: nat)
    requires me < |q.locals| && 1 <= q.capacity
    ensures var r := PopFront(q, me, tick, start).queues.shared;
            r == q.shared || (q.shared != [] && r == q.shared[1..])
    ensures |PopFront(q, me, tick, start).queues.locals| == |q.locals|
  {
  }

  lemma SumShift<T>(given: multiset<T>, got: multiset<T>, before: multiset<T>, after: multiset<T>, x: multiset<T>)
    requires given == got + before && before == after + x
    ensures given == (got + x) + after
  {
  }

  lemma GlobalPushConsistent<T>(s: System<T>, x: T)
    requires Consistent(s)
    ensures Consistent(Apply(s, GlobalPush(x)))
  {
    hide Bag;
    assert multiset(s.queues.shared + [x]) == multiset(s.queues.shared) + multiset{x};
  }

  lemma GlobalPopConsistent<T>(s: System<T>)
    requires Consistent(s)
    ensures Consistent(Apply(s, GlobalPop))
  {
    hide Bag, Content;
    if s.queues.shared != [] {
      var p := TakeShared(s.queues);
      TakeSharedExact(s.queues);
      SumShift(s.given, s.got, Content(s.queues), Content(p.queues), ItemsOf(p.item));
      assert s.queues.shared == [s.queues.shared[0]] + s.queues.shared[1..];
    }
  }

  lemma SharedGrows<T>(q: Queues<T>, me: nat, x: T)
    requires me < |q.locals|
    ensures q.shared <= PushBack(q, me, x).shared
    ensures |PushBack(q, me, x).locals| == |q.locals|
  {
  }

  lemma PushInLine<T>(q: Queues<T>, i: nat, x: T, came: seq<seq<T>>, went: seq<seq<T>>)
    requires i < |q.locals| && InLine(q.locals, came, went)
    ensures var q' := PushBack(q, i, x);
            InLine(q'.locals, came[i := came[i] + NewIn(q.locals[i], q'.locals[i])],
                   went[i := went[i] + GoneFrom(q.locals[i], q'.locals[i])])
  {
    var l, l' := q.locals[i], PushBack(q, i, x).locals[i];
    if |l| < q.capacity {
      LineStep(came[i], went[i], l, l', l');
    } else {
      LineStep(came[i], went[i], l, l, l');
      assert came[i] + NewIn(l, l') == came[i];
    }
  }

  lemma PopKeepsLines<T>(q: Queues<T>, i: nat, tick: nat, start: nat, came: seq<seq<T>>, went: seq<seq<T>>)
    requires WellFormed(q) && i < |q.locals| && InLine(q.locals, came, went)
    ensures var p := PopFront(q, i, tick, start);
            |p.queues.locals| == |q.locals| && InLine(p.queues.locals, PopCame(came, q, p, i), PopWent(went, q, p, i))
  {
    hide PopFront, InPop, GoneFrom, NewIn;
    var p := PopFront(q, i, tick, start);
    PopInLine(q, i, tick, start, i);
    forall j | 0 <= j < |q.locals|
      ensures PopCame(came, q, p, i)[j] == PopWent(went, q, p, i)[j] + p.queues.locals[j] {
      PopInLine(q, i, tick, start, j);
      LineStep(came[j], went[j], q.locals[j], InPop(q, p, i, j), p.queues.locals[j]);
    }
  }

  lemma LocalPushConsistent<T>(s: System<T>, i: nat, x: T)
    requires Consistent(s) && i < |s.queues.locals|
    ensures var s' := Apply(s, LocalPush(i, x));
            Consistent(s') && |s'.queues.locals| == |s.queues.locals|
            && s.left == s'.left && s.entered <= s'.entered
  {
    hide PushBack, Content;
    PushConserves(s.queues, i, x);
    SharedGrows(s.queues, i, x);
    PushInLine(s.queues, i, x, s.came, s.went);
    hide InLine;
    assert s.given + multiset{x} == s.got + (Content(s.queues) + multiset{x});
  }

  lemma LocalPopConsistent<T>(s: System<T>, i: nat, start: nat)
    requires Consistent(s) && i < |s.queues.locals|
    ensures var s' := Apply(s, LocalPop(i, start));
            Consistent(s') && |s'.queues.locals| == |s.queues.locals|
            && s.left <= s'.left && s.entered == s'.entered
  {
    hide PopFront, Content, InLine, PopCame, PopWent;
    var t := NextTick(s.ticks[i]);
    var p := PopFront(s.queues, i, t, start);
    PopConserves(s.queues, i, t, start);
    SharedShrinks(s.queues, i, t, start);
    PopKeepsLines(s.queues, i, t, start, s.came, s.went);
    SumShift(s.given, s.got, Content(s.queues), Content(p.queues), ItemsOf(p.item));
    var gone := |s.queues.shared| - |p.queues.shared|;
    assert s.queues.shared == s.queues.shared[..gone] + p.queues.shared;
  }

  lemma ApplyConsistent<T>(s: System<T>, op: Op<T>)
    requires Consistent(s) && Legal(s, op)
    ensures Consistent(Apply(s, op))
    ensures |Apply(s, op).queues.locals| == |s.queues.locals|
    ensures s.left <= Apply(s, op).left && s.entered <= Apply(s, op).entered
  {
    hide PopFront, PushBack, Content;
    match op
    case GlobalPush(x) => GlobalPushConsistent(s, x);
    case GlobalPop => GlobalPopConsistent(s);
    case LocalPush(i, x) => LocalPushConsistent(s, i, x);
    case LocalPop(i, start) => LocalPopConsistent(s, i, start);
  }

  ghost predicate LegalRun<T>(s: System<T>, ops: seq<Op<T>>)
    requires Consistent(s)
    decreases ops
  {
    ops == [] ||
    (&& Legal(s, ops[0])
     && (ApplyConsistent(s, ops[0]); LegalRun(Apply(s, ops[0]), ops[1..])))
  }

  ghost function Run<T>(s: System<T>, ops: seq<Op<T>>): System<T>
    requires Consistent(s) && LegalRun(s, ops)
    decreases ops
  {
    if ops == [] then s else
    ApplyConsistent(s, ops[0]);
    Run(Apply(s, ops[0]), ops[1..])
  }

  /**
   * Over every run: what was given is what was got plus what is queued, and the shared queue is a
   * FIFO, so what left it is a prefix of what entered it.
   */
  lemma {:induction false} RunConserves<T>(s: System<T>, ops: seq<Op<T>>)
    requires Consistent(s) && LegalRun(s, ops)
    ensures Consistent(Run(s, ops))
    ensures Run(s, ops).left <= Run(s, ops).entered
    ensures s.left <= Run(s, ops).left && s.entered <= Run(s, ops).entered
    decreases ops
  {
    if ops != [] {
      ApplyConsistent(s, ops[0]);
      RunConserves(Apply(s, ops[0]), ops[1..]);
    }
  }

  // ---------- bounded fairness ----------

  /** Pops until the tick is next a multiple of 61, counting the wrap of the 32-bit tick to 0. */
  function Countdown(v: nat): (d: nat)
    requires v < TICK_LIMIT
    ensures 1 <= d <= FAIR_PERIOD
  {
    var m := FAIR_PERIOD - v % FAIR_PERIOD;
    if v + m < TICK_LIMIT then m else TICK_LIMIT - v
  }

  lemma CountdownStep(v: nat)
    requires v < TICK_LIMIT
    ensures NextTick(v) % FAIR_PERIOD == 0 <==> Countdown(v) == 1
    ensures NextTick(v) % FAIR_PERIOD != 0 ==> Countdown(NextTick(v)) == Countdown(v) - 1
  {
    if v + 1 == TICK_LIMIT {
      assert NextTick(v) == 0;
    } else {
      assert NextTick(v) == v + 1;
    }
  }

  function TickAfter(v: nat, n: nat): nat
    requires v < TICK_LIMIT
    decreases n
  {
    if n == 0 then v else TickAfter(NextTick(v), n - 1)
  }

  /** Among any 61 consecutive pops of one worker there is one that tries the shared queue first. */
  lemma SharedFirstWithin61(v: nat) returns (n: nat)
    requires v < TICK_LIMIT
    ensures 1 <= n <= FAIR_PERIOD && n == Countdown(v) && TickAfter(v, n) % FAIR_PERIOD == 0
    decreases Countdown(v)
  {
    CountdownStep(v);
    if NextTick(v) % FAIR_PERIOD == 0 {
      n := 1;
      assert TickAfter(v, 1) == TickAfter(NextTick(v), 0);
    } else {
      n := SharedFirstWithin61(NextTick(v));
      n := n + 1;
    }
  }

  /** The number of `pop_front` calls of worker `me` in a run. */
  function Visits<T>(ops: seq<Op<T>>, me: nat): nat {
    if ops == [] then 0
    else (if ops[0].LocalPop? && ops[0].worker == me then 1 else 0) + Visits(ops[1..], me)
  }

  lemma SharedFirstPops<T>(s: System<T>, me: nat, start: nat)
    requires Consistent(s) && me < |s.queues.locals| && s.queues.shared != []
    requires NextTick(s.ticks[me]) % FAIR_PERIOD == 0
    ensures |Apply(s, LocalPop(me, start)).left| == |s.left| + 1
  {
  }

  /**
   * If `target` items are to leave the shared queue, `Countdown + 61 * (missing - 1)` pops of one
   * worker suffice, whatever is pushed and whoever else pops in between.
   */
  lemma {:induction false} FairRun<T>(s: System<T>, ops: seq<Op<T>>, me: nat, target: nat)
    requires Consistent(s) && LegalRun(s, ops)
    requires me < |s.queues.locals| && target <= |s.entered|
    requires |s.left| < target ==>
               Visits(ops, me) >= Countdown(s.ticks[me]) + FAIR_PERIOD * (target - |s.left| - 1)
    ensures |Run(s, ops).left| >= target
    decreases ops
  {
    RunConserves(s, ops);
    if |s.left| < target {
      var s' := Apply(s, ops[0]);
      ApplyConsistent(s, ops[0]);
      if ops[0].LocalPop? && ops[0].worker == me {
        CountdownStep(s.ticks[me]);
        if NextTick(s.ticks[me]) % FAIR_PERIOD == 0 {
          SharedFirstPops(s, me, ops[0].start);
        }
      } else {
        assert s'.ticks[me] == s.ticks[me];
      }
      FairRun(s', ops[1..], me, target);
    }
  }

  /**
   * Bounded fairness: the item at depth `k` of the shared queue has left it after any run with
   * `61 * (k + 1)` pops of one worker.
   */
  lemma DepthBoundsWait<T>(s: System<T>, ops: seq<Op<T>>, me: nat, k: nat)
    requires Consistent(s) && LegalRun(s, ops)
    requires me < |s.queues.locals| && k < |s.queues.shared|
    requires Visits(ops, me) >= FAIR_PERIOD * (k + 1)
    ensures var left := Run(s, ops).left;
            |s.left| + k < |left| && left[|s.left| + k] == s.queues.shared[k]
  {
    hide Run, LegalRun, Content;
    FairRun(s, ops, me, |s.left| + k + 1);
    RunConserves(s, ops);
    assert s.entered[|s.left| + k] == s.queues.shared[k];
  }

  // ---------- the mutable queues ----------

  class WorkStealQueue<T> {
    var shared: seq<T>
    var len: nat
    var locals: seq<seq<T>>
    const capacity: nat
    var index: nat

    ghost function View(): Queues<T>
      reads this
    {
      Queues(shared, locals, capacity)
    }

    /** The cached length is the real one, and the workers respect their capacity. */
    ghost predicate Valid()
      reads this
    {
      len == |shared| && WellFormed(View()) && |locals| < Rand.TWO_TO_32
    }

    constructor (size: nat, capacity: nat)
      requires 1 <= size < Rand.TWO_TO_32 && 1 <= capacity
      ensures Valid() && this.capacity == capacity && index == 0
      ensures shared == [] && |locals| == size && forall i | 0 <= i < size :: locals[i] == []
    {
      shared, len, index := [], 0, 0;
      locals := seq(size, _ => []);
      this.capacity := capacity;
    }

    method Push(x: T)
      requires Valid()
      modifies this`shared, this`len
      ensures Valid() && shared == old(shared) + [x]
    {
      shared := shared + [x];
      len := len + 1;
    }

    /** The fast path on the cached length and the steal agree: `None` exactly when nothing is shared. */
    method Pop() returns (r: Option<T>)
      requires Valid()
      modifies this`shared, this`len
      ensures Valid()
      ensures r.None? <==> old(shared) == []
      ensures r.None? ==> shared == old(shared)
      ensures r.Some? ==> r.value == old(shared)[0] && shared == old(shared)[1..]
    {
      if len == 0 {
        return None;
      }
      r := Some(shared[0]);
      shared := shared[1..];
      len := len - 1;
    }

    /** Hands out the workers round robin; the first `|locals|` calls hand out 0, 1, 2 and so on. */
    method LocalIndex() returns (i: nat)
      requires Valid()
      modifies this`index
      ensures i == old(index) % |locals| && i < |locals|
      ensures index == (old(index) + 1) % 0x1_0000_0000_0000_0000
      ensures old(index) < |locals| ==> i == old(index) && index == old(index) + 1
    {
      i := index % |locals|;
      if index < |locals| {
        CyclicValue(index, 0, |locals|);
      }
      index := (index + 1) % 0x1_0000_0000_0000_0000;
    }
  }

  class LocalQueue<T> {
    var tick: nat
    const global: WorkStealQueue<T>
    var stealing: bool
    const me: nat
    const rand: Rand.FastRand

    /** Between calls the steal lock is free and the tick is a 32-bit value. */
    ghost predicate Valid()
      reads this, global
    {
      global.Valid() && me < |global.locals| && !stealing && tick < TICK_LIMIT
    }

    constructor (global: WorkStealQueue<T>, me: nat, rand: Rand.FastRand)
      requires global.Valid() && me < |global.locals|
      ensures Valid() && this.global == global && this.me == me && this.rand == rand && tick == 0
    {
      this.tick, this.global, this.stealing, this.me, this.rand := 0, global, false, me, rand;
    }

    /** `count` items go to the shared queue oldest first, and the new item follows them. */
    method PushBackItem(x: T)
      requires Valid()
      modifies global`shared, global`len, global`locals
      ensures Valid()
      ensures global.View() == PushBack(old(global.View()), me, x)
      ensures Content(global.View()) == old(Content(global.View())) + multiset{x}
    {
      hide Bag, Content;
      PushConserves(global.View(), me, x);
      if |global.locals[me]| < global.capacity {
        global.locals := global.locals[me := global.locals[me] + [x]];
      } else {
        ghost var l := global.locals[me];
        ghost var before := global.View();
        var count := |global.locals[me]| / 2;
        for i := 0 to count
          invariant global.Valid() && me < |global.locals|
          invariant global.locals == before.locals[me := l[i..]]
          invariant global.shared == before.shared + l[..i]
        {
          assert global.locals[me][0] == l[i];
          var item := global.locals[me][0];
          global.locals := global.locals[me := global.locals[me][1..]];
          global.Push(item);
          assert l[..i] + [l[i]] == l[..i + 1];
        }
        global.Push(x);
      }
    }

    method Tick() returns (t: nat)
      requires tick < TICK_LIMIT
      modifies this`tick
      ensures t == tick == NextTick(old(tick))
    {
      var val := tick;
      tick := (val + 1) % TICK_LIMIT;
      if val == TICK_LIMIT - 1 {
        tick := 0;
        return 0;
      }
      t := val + 1;
    }

    method TryLock() returns (ok: bool)
      modifies this`stealing
      ensures ok == !old(stealing) && stealing
    {
      ok := !stealing;
      stealing := true;
    }

    method ReleaseLock()
      modifies this`stealing
      ensures !stealing
    {
      stealing := false;
    }

    /**
     * Shared first on every 61st tick, then the own worker, then a cyclic scan for a victim, and the
     * shared queue last. The self-check of the source compares the addresses of two references and is
     * never true; the own worker is skipped because it is empty at that point.
     */
    method PopFrontItem() returns (r: Option<T>, ghost start: nat)
      requires Valid()
      modifies this`tick, this`stealing, global`shared, global`len, global`locals, rand
      ensures Valid()
      ensures tick == NextTick(old(tick))
      ensures start < |global.locals| == |old(global.locals)|
      ensures Popped(global.View(), r) == PopFront(old(global.View()), me, tick, start)
      ensures r.None? <==> old(Content(global.View())) == multiset{}
      ensures old(Content(global.View())) == Content(global.View()) + ItemsOf(r)
    {
      hide Bag, Content, PopFront;
      ghost var before := global.View();
      var t := Tick();
      r, start := Take(t);
      Settle(before, t, start);
    }

    /** The body of `pop_front` after the tick. */
    method Take(t: nat) returns (r: Option<T>, ghost start: nat)
      requires Valid()
      modifies this`stealing, global`shared, global`len, global`locals, rand
      ensures Valid()
      ensures start < |global.locals| == |old(global.locals)|
      ensures Popped(global.View(), r) == PopFront(old(global.View()), me, t, start)
    {
      hide TakeStolen, Victim;
      start := 0;
      if t % FAIR_PERIOD == 0 {
        r := global.Pop();
        if r.Some? {
          return;
        }
      }
      if global.locals[me] != [] {
        r := Some(global.locals[me][0]);
        global.locals := global.locals[me := global.locals[me][1..]];
        return;
      }
      r, start := Scavenge();
    }

    /** The own worker is empty: steal under the lock, and try the shared queue when that fails. */
    method Scavenge() returns (r: Option<T>, ghost start: nat)
      requires Valid() && global.locals[me] == []
      modifies this`stealing, global`shared, global`len, global`locals, rand
      ensures Valid()
      ensures start < |global.locals| == |old(global.locals)|
      ensures Popped(global.View(), r) ==
              match Victim(old(global.locals), start, 0)
              case Some(v) => TakeStolen(old(global.View()), me, v)
              case None => if old(global.shared) == [] then Popped(old(global.View()), None)
                           else TakeShared(old(global.View()))
    {
      hide TakeStolen, Victim;
      start := 0;
      var locked := TryLock();
      if locked {
        var num := |global.locals|;
        var first := rand.FastrandN(num);
        start := first;
        r := StealScan(first);
        ReleaseLock();
        if r.Some? {
          return;
        }
      }
      r := global.Pop();
    }

    /** The scan loop: the first nonempty worker from `first` on is robbed, if there is one. */
    method StealScan(first: nat) returns (r: Option<T>)
      requires Valid'() && first < |global.locals| && global.locals[me] == []
      modifies global`locals
      ensures Valid'() && global.shared == old(global.shared) && |global.locals| == |old(global.locals)|
      ensures r.Some? <==> Victim(old(global.locals), first, 0).Some?
      ensures match Victim(old(global.locals), first, 0)
              case None => r.None? && global.locals == old(global.locals)
              case Some(v) => Popped(global.View(), r) == TakeStolen(old(global.View()), me, v)
    {
      ghost var before := global.View();
      var num := |global.locals|;
      for j := 0 to num
        invariant Valid'() && global.View() == before
        invariant Victim(before.locals, first, j) == Victim(before.locals, first, 0)
      {
        var i := Cyclic(first, j, num);
        if global.locals[i] == [] {
          continue;
        }
        var l := global.locals[i];
        var n := StealCount(|l|, global.capacity - |global.locals[me]|);
        TakeStolenExact(before, me, i);
        assert l[..n][1..] == l[1..n];
        global.locals := global.locals[i := l[n..]][me := l[..n]];
        r := Some(global.locals[me][0]);
        global.locals := global.locals[me := global.locals[me][1..]];
        assert global.locals == before.locals[i := l[n..]][me := l[1..n]];
        return;
      }
      r := None;
    }

    /** As `Valid`, with the steal lock held. */
    ghost predicate Valid'()
      reads this, global
    {
      global.Valid() && me < |global.locals| && stealing && tick < TICK_LIMIT
    }

    lemma Settle(before: Queues<T>, t: nat, start: nat)
      requires WellFormed(before) && me < |before.locals| && start < |before.locals|
      ensures var p := PopFront(before, me, t, start);
              && WellFormed(p.queues) && |p.queues.locals| == |before.locals|
              && (p.item.None? <==> Content(before) == multiset{})
              && Content(before) == Content(p.queues) + ItemsOf(p.item)
    {
      PopConserves(before, me, t, start);
      PopNoneIffEmpty(before, me, t, start);
    }
  }
}
