// The backoff loop of the hooked `poll` (syscall/nio.rs): the kernel is asked without waiting, and
// between two questions the coroutine waits 1, 2, 4, 8, 16, 16, ... milliseconds.
module PollBackoff {
  const C_INT_MAX: nat := 0x7FFF_FFFF

  predicate IsStep(x: nat) {
    x == 1 || x == 2 || x == 4 || x == 8 || x == 16
  }

  function Doubled(x: nat): nat {
    if x < 16 then 2 * x else x
  }

  function Min(a: nat, b: nat): nat {
    if a < b then a else b
  }

  /** The waits of a loop that starts with `t` ms left and step `x`, if no question is answered. */
  function Backoff(t: nat, x: nat): seq<nat>
    requires IsStep(x)
    decreases t
  {
    if t == 0 then [] else [Min(t, x)] + Backoff(t - Min(t, x), Doubled(x))
  }

  function CeilDiv(a: nat, b: nat): nat
    requires b > 0
  {
    (a + b - 1) / b
  }

  function Sum(s: seq<nat>): nat {
    if s == [] then 0 else s[0] + Sum(s[1..])
  }

  /** The waits add up to exactly the timeout. */
  lemma {:induction false} WaitsSumToTimeout(t: nat, x: nat)
    requires IsStep(x)
    ensures Sum(Backoff(t, x)) == t
    decreases t
  {
    if t > 0 {
      WaitsSumToTimeout(t - Min(t, x), Doubled(x));
      assert Backoff(t, x)[1..] == Backoff(t - Min(t, x), Doubled(x));
    }
  }

  lemma {:induction false} FullSteps(t: nat)
    ensures |Backoff(t, 16)| == CeilDiv(t, 16)
    decreases t
  {
    if t > 16 {
      FullSteps(t - 16);
    } else if t > 0 {
      assert Backoff(t - Min(t, 16), 16) == [];
    }
  }

  /** 1 + 2 + 4 + 8 ms in four waits, then 16 ms at a time. */
  lemma WaitCount(t: nat)
    requires t >= 15
    ensures |Backoff(t, 1)| == 4 + CeilDiv(t - 15, 16)
  {
    FullSteps(t - 15);
    assert |Backoff(t - 7, 8)| == 1 + |Backoff(t - 15, 16)|;
    assert |Backoff(t - 3, 4)| == 1 + |Backoff(t - 7, 8)|;
    assert |Backoff(t - 1, 2)| == 1 + |Backoff(t - 3, 4)|;
  }

  /** Below 15 ms: as many waits as `t` has binary digits. */
  lemma ShortWaitCount(t: nat)
    requires t < 15
    ensures |Backoff(t, 1)| == if t == 0 then 0 else if t < 2 then 1 else if t < 4 then 2 else if t < 8 then 3 else 4
  {
    if t >= 1 {
      BackoffHead(t, 1);
      if t >= 2 {
        BackoffHead(t - 1, 2);
        if t >= 4 {
          BackoffHead(t - 3, 4);
          if t >= 8 {
            BackoffHead(t - 7, 8);
          }
        }
      }
    }
  }

  /** The k-th wait of a loop that never gives up. */
  function EndlessWait(k: nat): nat {
    if k == 0 then 1 else if k == 1 then 2 else if k == 2 then 4 else if k == 3 then 8 else 16
  }

  datatype Polled = Answered(r: int) | Unfinished

  /** A negative timeout, and the largest one, mean no limit. */
  predicate Endless(timeout: int) {
    timeout < 0 || timeout == C_INT_MAX
  }

  lemma BackoffHead(t: nat, x: nat)
    requires IsStep(x) && t > 0
    ensures Backoff(t, x) == [Min(t, x)] + Backoff(t - Min(t, x), Doubled(x))
  {
  }

  /** The loop of `poll` after the waits so far: `t` is left and the next step is `x`. */
  ghost predicate Follows(timeout: int, waits: seq<nat>, t: nat, x: nat) {
    && IsStep(x)
    && if Endless(timeout) then
         t == C_INT_MAX && x == EndlessWait(|waits|) && forall k | 0 <= k < |waits| :: waits[k] == EndlessWait(k)
       else
         t < C_INT_MAX && waits + Backoff(t, x) == Backoff(timeout, 1)
  }

  function Left(t: nat, x: nat): nat {
    if t == C_INT_MAX then t else if t > x then t - x else 0
  }

  lemma Advances(timeout: int, waits: seq<nat>, t: nat, x: nat)
    requires timeout <= C_INT_MAX && Follows(timeout, waits, t, x) && t > 0
    ensures Follows(timeout, waits + [Min(t, x)], Left(t, x), Doubled(x))
  {
    assert IsStep(Doubled(x));
    BackoffHead(t, x);
    hide Backoff, Doubled, IsStep;
    if Endless(timeout) {
      NextEndless(x, |waits|);
    } else {
      hide EndlessWait;
      Regroup(waits, Min(t, x), Backoff(t - Min(t, x), Doubled(x)));
      hide Min;
    }
  }

  lemma NextEndless(x: nat, k: nat)
    requires x == EndlessWait(k)
    ensures Doubled(x) == EndlessWait(k + 1) && Min(C_INT_MAX, x) == x
  {
  }

  /** With a limit the waits are those of the endless loop, but that the last is cut to what is left. */
  lemma {:induction false} BackoffAt(t: nat, x: nat, j: nat)
    requires IsStep(x) && x == EndlessWait(j)
    ensures var waits := Backoff(t, x);
            forall k | 0 <= k < |waits| ::
              0 < waits[k] <= EndlessWait(j + k) && (k < |waits| - 1 ==> waits[k] == EndlessWait(j + k))
    decreases t
  {
    if t > 0 {
      BackoffHead(t, x);
      NextEndless(x, j);
      var rest := Backoff(t - Min(t, x), Doubled(x));
      BackoffAt(t - Min(t, x), Doubled(x), j + 1);
      forall k | 0 <= k < |rest|
        ensures 0 < rest[k] <= EndlessWait(j + (k + 1)) && (k < |rest| - 1 ==> rest[k] == EndlessWait(j + (k + 1))) {
        assert j + (k + 1) == (j + 1) + k;
      }
    }
  }

  lemma Regroup(a: seq<nat>, x: nat, b: seq<nat>)
    ensures a + ([x] + b) == a + [x] + b
  {
  }

  /** What `Follows` says when the loop is left. */
  lemma Leaves(timeout: int, waits: seq<nat>, t: nat, x: nat)
    requires timeout <= C_INT_MAX && Follows(timeout, waits, t, x)
    ensures !Endless(timeout) ==> waits <= Backoff(timeout, 1) && (t == 0 <==> waits == Backoff(timeout, 1))
    ensures Endless(timeout) ==> t > 0 && forall k | 0 <= k < |waits| :: waits[k] == EndlessWait(k)
  {
    assert t > 0 ==> Backoff(t, x) != [];
  }

  /** `poll` against the kernel's replies; the script of replies may run out. */
  method Poll(timeout: int, replies: seq<int>) returns (polled: Polled, waits: seq<nat>, polls: nat)
    requires timeout <= C_INT_MAX
    ensures polls <= |replies| && forall i | 0 <= i < polls - 1 :: replies[i] == 0
    ensures polled.Answered? ==> polls == |waits| + 1 && polled.r == replies[polls - 1]
    ensures polled == Unfinished ==> polls == |waits| == |replies| && forall i | 0 <= i < polls :: replies[i] == 0
    // with a limit: the waits follow the backoff, and a zero answer comes when it is used up
    ensures !Endless(timeout) ==> waits <= Backoff(timeout, 1)
    ensures !Endless(timeout) && polled == Answered(0) ==> waits == Backoff(timeout, 1)
    ensures !Endless(timeout) && polled == Unfinished ==> |replies| <= |Backoff(timeout, 1)|
    // without: never a zero answer
    ensures Endless(timeout) ==> polled != Answered(0) && forall k | 0 <= k < |waits| :: waits[k] == EndlessWait(k)
  {
    var t: nat := if timeout < 0 then C_INT_MAX else timeout;
    var x: nat := 1;
    waits, polls := [], 0;
    hide Backoff, Follows, Endless, EndlessWait, IsStep;
    assert Follows(timeout, waits, t, x) by {
      Begins(timeout);
    }
    while polls < |replies|
      invariant polls == |waits| <= |replies| && Follows(timeout, waits, t, x)
      invariant forall i | 0 <= i < polls :: replies[i] == 0
    {
      var r := replies[polls];
      Leaves(timeout, waits, t, x);
      polls := polls + 1;
      if r != 0 || t == 0 {
        return Answered(r), waits, polls;
      }
      Advances(timeout, waits, t, x);
      waits := waits + [Min(t, x)];
      ghost var t0, x0 := t, x;
      if t != C_INT_MAX {
        t := if t > x then t - x else 0;
      }
      if x < 16 {
        x := x * 2;
      }
      assert t == Left(t0, x0) && x == Doubled(x0);
    }
    Leaves(timeout, waits, t, x);
    return Unfinished, waits, polls;
  }

  lemma Begins(timeout: int)
    requires timeout <= C_INT_MAX
    ensures Follows(timeout, [], if timeout < 0 then C_INT_MAX else timeout, 1)
  {
  }

  /** If every question is answered by 0, the requested waits last exactly the timeout and the loop ends. */
  method PollQuiet(timeout: nat, replies: seq<int>) returns (waits: seq<nat>, polls: nat)
    requires timeout < C_INT_MAX && |replies| > |Backoff(timeout, 1)| && forall i | 0 <= i < |replies| :: replies[i] == 0
    ensures Sum(waits) == timeout && polls == |waits| + 1
    ensures timeout >= 15 ==> |waits| == 4 + CeilDiv(timeout - 15, 16)
  {
    var polled;
    polled, waits, polls := Poll(timeout, replies);
    WaitsSumToTimeout(timeout, 1);
    if timeout >= 15 {
      WaitCount(timeout);
    }
  }
}
