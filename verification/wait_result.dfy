// One thread that waits for a task's result (`wait_result`) against the `try_run` that produces it
// (pool/mod.rs), step by step in every interleaving. Only the table entries of that task matter.
module WaitResult {
  import opened Constants
  import opened PoolModel

  /** What `wait_result` gave back; a timeout records whether the result had been made, and handed out, by then. */
  datatype Reply = Ok(outcome: Outcome) | TimedOut(made: bool, handed: bool)

  /** The waiting thread: between calls, about to register, blocked, checking again, or removing its entry. */
  datatype Waiter = BetweenCalls | Registering | Blocked | Rechecking | Removing(outcome: Outcome, expected: bool)

  /** The producing `try_run`: before the result, stored, looking at a waiter entry (and so locking it), done. */
  datatype Producer = Working | Stored | Holding | Done

  datatype World = World(
    waiter: Waiter, producer: Producer,
    result: Option<Outcome>,    // the entry in `results`
    pending: Option<bool>,      // the entry in `waits`
    made: Option<Outcome>,      // what the task gave
    replies: seq<Reply>,
    broken: bool)               // an assertion has fired

  datatype Move =
    | Check                     // first `try_get_result`
    | Register                  // find or insert the entry in `waits`
    | WakeUp                      // the condition is seen to hold
    | Expire                    // the wait times out
    | Recheck                   // second `try_get_result`
    | Remove                    // `waits.remove`
    | Store(outcome: Outcome)   // `results.insert`
    | Look                      // `waits.get`
    | Notify                    // `pending = false`, notify

  function Fresh(): World {
    World(BetweenCalls, Working, None, None, None, [], false)
  }

  function Oks(replies: seq<Reply>): nat {
    if replies == [] then 0
    else Oks(replies[..|replies| - 1]) + if replies[|replies| - 1].Ok? then 1 else 0
  }

  function Replied(w: World, r: Reply): World {
    w.(waiter := BetweenCalls, replies := w.replies + [r])
  }

  /** One move; a move that is not the next one of its thread does not occur. */
  function Step(w: World, m: Move): World {
    if w.broken then w else
    match m
    case Check =>
      if w.waiter != BetweenCalls then w
      else if w.result.Some? then w.(waiter := Removing(w.result.value, false), result := None)
      else w.(waiter := Registering)
    case Register =>
      if w.waiter != Registering then w
      else w.(waiter := Blocked, pending := if w.pending.Some? then w.pending else Some(true))
    case WakeUp =>
      if w.waiter == Blocked && w.pending == Some(false) then w.(waiter := Rechecking) else w
    case Expire =>
      if w.waiter == Blocked then w.(waiter := Rechecking) else w
    case Recheck =>
      if w.waiter != Rechecking then w
      else if w.result.Some? then w.(waiter := Removing(w.result.value, true), result := None)
      else Replied(w, TimedOut(w.made.Some?, Oks(w.replies) > 0))
    case Remove =>
      // the producer's look locks the entry
      if !w.waiter.Removing? || w.producer == Holding then w
      else if w.waiter.expected && w.pending.None? then w.(broken := true)
      else Replied(w.(pending := None), Ok(w.waiter.outcome))
    case Store(outcome) =>
      if w.producer != Working then w
      else if w.result.Some? then w.(broken := true)
      else w.(producer := Stored, result := Some(outcome), made := Some(outcome))
    case Look =>
      if w.producer != Stored then w
      else w.(producer := if w.pending.Some? then Holding else Done)
    case Notify =>
      if w.producer != Holding then w else w.(producer := Done, pending := Some(false))
  }

  function Run(w: World, ms: seq<Move>): World
    decreases ms
  {
    if ms == [] then w else Run(Step(w, ms[0]), ms[1..])
  }

  /** A reply is right: the task's own result, or a timeout with nothing there to be had. */
  predicate Right(r: Reply, made: Option<Outcome>) {
    match r
    case Ok(outcome) => made == Some(outcome)
    case TimedOut(wasMade, handed) => wasMade ==> handed
  }

  function InHand(w: World): nat {
    (if w.result.Some? then 1 else 0) + (if w.waiter.Removing? then 1 else 0)
  }

  ghost predicate AllRight(replies: seq<Reply>, made: Option<Outcome>) {
    forall r <- replies :: Right(r, made)
  }

  ghost predicate Inv(w: World) {
    Booked(w) && AllRight(w.replies, w.made)
  }

  /** The books of the result and of the waiter's entry. */
  ghost predicate Booked(w: World) {
    !w.broken && Counted(w) && Known(w) && Entered(w)
  }

  /** The result is in the table, in the waiter's hands, or handed out. */
  ghost predicate Counted(w: World) {
    Oks(w.replies) + InHand(w) == (if w.made.Some? then 1 else 0)
  }

  ghost predicate Known(w: World) {
    && (w.producer == Working <==> w.made.None?)
    && (w.result.Some? ==> w.result == w.made)
    && (w.waiter.Removing? ==> Some(w.waiter.outcome) == w.made)
  }

  /** The waiter's entry stays from its registration to its removal. */
  ghost predicate Entered(w: World) {
    && (w.waiter == Blocked || w.waiter == Rechecking || (w.waiter.Removing? && w.waiter.expected) ==> w.pending.Some?)
    && (w.producer == Holding ==> w.pending.Some?)
    && (w.pending == Some(false) ==> w.producer == Done)
  }

  lemma OksSnoc(rs: seq<Reply>, r: Reply)
    ensures Oks(rs + [r]) == Oks(rs) + if r.Ok? then 1 else 0
  {
    assert (rs + [r])[..|rs|] == rs;
  }

  lemma StepBooks(w: World, m: Move)
    requires Booked(w)
    ensures Booked(Step(w, m))
  {
    assert !Step(w, m).broken && Known(Step(w, m)) by {
      hide Oks;
    }
    assert Entered(Step(w, m)) by {
      hide Oks, Counted;
    }
    StepCounts(w, m);
    hide Step, Counted, Known, Entered;
  }

  lemma StepCounts(w: World, m: Move)
    requires !w.broken && Counted(w) && Known(w)
    ensures Counted(Step(w, m))
  {
    match m {
      case Recheck =>
        OksSnoc(w.replies, TimedOut(w.made.Some?, Oks(w.replies) > 0));
      case Remove =>
        if w.waiter.Removing? {
          OksSnoc(w.replies, Ok(w.waiter.outcome));
        }
      case _ =>
    }
    hide Oks;
  }

  /** A reply that was right stays right when the result is made: before, only timeouts were given. */
  lemma RightStays(replies: seq<Reply>, outcome: Outcome)
    requires AllRight(replies, None)
    ensures AllRight(replies, Some(outcome))
  {
  }

  lemma RightSnoc(replies: seq<Reply>, made: Option<Outcome>, r: Reply)
    requires AllRight(replies, made) && Right(r, made)
    ensures AllRight(replies + [r], made)
  {
  }

  lemma StepReplies(w: World, m: Move)
    requires Inv(w)
    ensures AllRight(Step(w, m).replies, Step(w, m).made)
  {
    var timeout := TimedOut(w.made.Some?, Oks(w.replies) > 0);
    if w.made.None? && m.Store? {
      RightStays(w.replies, m.outcome);
    } else if m == Recheck && w.waiter == Rechecking && w.result.None? {
      RightSnoc(w.replies, w.made, timeout);
    } else if m == Remove && w.waiter.Removing? {
      RightSnoc(w.replies, w.made, Ok(w.waiter.outcome));
    }
    hide AllRight, Oks;
  }

  lemma StepKeeps(w: World, m: Move)
    requires Inv(w)
    ensures Inv(Step(w, m))
  {
    StepBooks(w, m);
    StepReplies(w, m);
    hide Booked, AllRight, Step;
  }

  lemma {:induction false} RunKeeps(w: World, ms: seq<Move>)
    requires Inv(w)
    ensures Inv(Run(w, ms))
    decreases ms
  {
    if ms != [] {
      StepKeeps(w, ms[0]);
      RunKeeps(Step(w, ms[0]), ms[1..]);
    }
  }

  /**
   * In every interleaving, over any number of calls: no assertion fires; Ok carries the task's own
   * result and is given at most once; a timeout is given only when the result was not yet there.
   */
  lemma RepliesAreRight(ms: seq<Move>)
    ensures var w := Run(Fresh(), ms);
            && !w.broken
            && Oks(w.replies) <= 1
            && AllRight(w.replies, w.made)
  {
    assert Inv(Fresh());
    RunKeeps(Fresh(), ms);
  }

  /** A notified waiter finds the result. */
  lemma WokenFindsResult(ms: seq<Move>)
    requires var w := Run(Fresh(), ms); w.waiter == Blocked && w.pending == Some(false) && Oks(w.replies) == 0
    ensures var w := Run(Fresh(), ms);
            w.made.Some? && Step(Step(w, WakeUp), Recheck).waiter == Removing(w.made.value, true)
  {
    assert Inv(Fresh());
    RunKeeps(Fresh(), ms);
  }

  /** Blocked with the flag still up and the result already there: the producer looked too early or has not looked. */
  lemma UnnotifiedStillGetsResult(ms: seq<Move>)
    requires var w := Run(Fresh(), ms); w.waiter == Blocked && w.made.Some? && Oks(w.replies) == 0
    ensures var w := Run(Fresh(), ms); Step(Step(w, Expire), Recheck).waiter == Removing(w.made.value, true)
  {
    assert Inv(Fresh());
    RunKeeps(Fresh(), ms);
  }

  /** The missed notification: the producer finishes between the first check and the registration. */
  lemma MissedNotification(v: Outcome)
    ensures var w := Run(Fresh(), [Check, Store(v), Look, Register]);
            && w.waiter == Blocked && w.pending == Some(true) && w.producer == Done
            && Step(w, WakeUp) == w
            && Run(w, [Expire, Recheck, Remove]).replies == [Ok(v)]
  {
    var w0 := Fresh();
    var w1 := Step(w0, Check);
    var w2 := Step(w1, Store(v));
    var w3 := Step(w2, Look);
    var w4 := Step(w3, Register);
    RunOne(w0, Check, [Store(v), Look, Register]);
    RunOne(w1, Store(v), [Look, Register]);
    RunOne(w2, Look, [Register]);
    RunOne(w3, Register, []);
    var w5 := Step(w4, Expire);
    var w6 := Step(w5, Recheck);
    RunOne(w4, Expire, [Recheck, Remove]);
    RunOne(w5, Recheck, [Remove]);
    RunOne(w6, Remove, []);
  }

  lemma RunOne(w: World, m: Move, ms: seq<Move>)
    ensures Run(w, [m] + ms) == Run(Step(w, m), ms)
  {
    assert ([m] + ms)[1..] == ms;
  }
}
