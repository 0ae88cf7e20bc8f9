// `EventLoops::next` and the sweeps over all event loops (net/core.rs), in the preemptive build,
// where loop 0 belongs to the monitor.
module RoundRobin {
  const MONITOR_CPU: nat := 0
  const COUNTER_LIMIT: nat := 0x1_0000_0000_0000_0000

  /** Which loop a counter value selects. */
  function Selected(counter: nat, loops: nat, skipMonitor: bool): nat
    requires loops >= 2
  {
    if skipMonitor && counter % loops == MONITOR_CPU then 1 else counter % loops
  }

  function Count(s: seq<nat>, x: nat): nat {
    if s == [] then 0 else Count(s[..|s| - 1], x) + if s[|s| - 1] == x then 1 else 0
  }

  lemma {:induction false} CountNone(s: seq<nat>, x: nat)
    requires x !in s
    ensures Count(s, x) == 0
    decreases |s|
  {
    if s != [] {
      CountNone(s[..|s| - 1], x);
    }
  }

  /** A value found at exactly one index is counted once. */
  lemma {:induction false} CountOnce(s: seq<nat>, x: nat, at: nat)
    requires at < |s| && forall i | 0 <= i < |s| :: s[i] == x <==> i == at
    ensures Count(s, x) == 1
    decreases |s|
  {
    var init := s[..|s| - 1];
    if at == |s| - 1 {
      assert forall i | 0 <= i < |init| :: init[i] == s[i];
      CountNone(init, x);
    } else {
      CountOnce(init, x, at);
    }
  }

  lemma {:induction false} CountTwice(s: seq<nat>, x: nat, a: nat, b: nat)
    requires a < b < |s| && forall i | 0 <= i < |s| :: s[i] == x <==> i == a || i == b
    ensures Count(s, x) == 2
    decreases |s|
  {
    var init := s[..|s| - 1];
    if b == |s| - 1 {
      CountOnce(init, x, a);
    } else {
      CountTwice(init, x, a, b);
    }
  }

  lemma ModStep(c: nat, n: nat)
    requires n >= 1
    ensures (c + 1) % n == if c % n == n - 1 then 0 else c % n + 1
  {
    var q, r := c / n, c % n;
    assert c == q * n + r;
    if r == n - 1 {
      assert c + 1 == (q + 1) * n;
      DivMod(c + 1, n, q + 1, 0);
    } else {
      DivMod(c + 1, n, q, r + 1);
    }
  }

  lemma DivMod(c: nat, n: nat, q: nat, r: nat)
    requires n >= 1 && c == q * n + r && r < n
    ensures c % n == r && c / n == q
  {
    var q', r' := c / n, c % n;
    assert c == q' * n + r';
    if q' < q {
      assert (q - q') * n == q * n - q' * n;
      AtLeastOnce(q - q', n);
    } else if q' > q {
      assert (q' - q) * n == q' * n - q * n;
      AtLeastOnce(q' - q, n);
    }
  }

  lemma AtLeastOnce(k: nat, n: nat)
    requires k >= 1
    ensures k * n >= n
  {
    assert k * n == n + (k - 1) * n;
  }

  /** Residues that count up by one. */
  predicate Cyclic(s: seq<nat>, start: nat, n: nat)
    requires n >= 1
  {
    forall i | 0 <= i < |s| :: s[i] == (if start + i < n then start + i else start + i - n)
  }

  /** n residues in a row meet each residue once: where residue `x` is met. */
  function Meets(start: nat, n: nat, x: nat): nat
    requires start < n && x < n
  {
    if x >= start then x - start else x + n - start
  }

  lemma CyclicMeets(s: seq<nat>, start: nat, n: nat, x: nat)
    requires start < n && x < n && |s| == n && Cyclic(s, start, n)
    ensures Meets(start, n, x) < n
    ensures forall i | 0 <= i < n :: s[i] == x <==> i == Meets(start, n, x)
  {
  }

  /** How often loop `x` must be selected by one sweep. */
  function Share(x: nat, skipMonitor: bool): nat {
    if !skipMonitor then 1 else if x == MONITOR_CPU then 0 else if x == 1 then 2 else 1
  }

  /** A sweep over `loops` consecutive residues gives every loop its share. */
  lemma SweepShares(picks: seq<nat>, residues: seq<nat>, start: nat, loops: nat, skipMonitor: bool, x: nat)
    requires loops >= 2 && start < loops && x < loops && |picks| == |residues| == loops
    requires Cyclic(residues, start, loops)
    requires forall i | 0 <= i < loops ::
               picks[i] == if skipMonitor && residues[i] == MONITOR_CPU then 1 else residues[i]
    ensures Count(picks, x) == Share(x, skipMonitor)
  {
    CyclicMeets(residues, start, loops, x);
    if !skipMonitor || x > 1 {
      CountOnce(picks, x, Meets(start, loops, x));
    } else if x == MONITOR_CPU {
      CountNone(picks, x);
    } else {
      CyclicMeets(residues, start, loops, 0);
      var a, b := Meets(start, loops, 0), Meets(start, loops, 1);
      CountTwice(picks, x, if a < b then a else b, if a < b then b else a);
    }
  }

  class EventLoops {
    const loops: nat
    var index: nat

    constructor (loops: nat)
      requires loops >= 2
      ensures this.loops == loops && index == 0
    {
      this.loops := loops;
      index := 0;
    }

    /** `next`: the loop selected, and whether it is the monitor's. Skipping the monitor restarts the counter. */
    method Next(skipMonitor: bool) returns (loop: nat, isMonitor: bool)
      requires loops >= 2 && index < COUNTER_LIMIT
      modifies this`index
      ensures index < COUNTER_LIMIT
      ensures loop < loops && (isMonitor <==> loop == MONITOR_CPU) && (skipMonitor ==> loop != MONITOR_CPU)
      ensures loop == Selected(old(index), loops, skipMonitor)
      ensures index == if skipMonitor && old(index) % loops == MONITOR_CPU then 1 else (old(index) + 1) % COUNTER_LIMIT
      ensures old(index) + 1 < COUNTER_LIMIT ==> index <= old(index) + 1 && index % loops == (old(index) + 1) % loops
    {
      var i := index;
      index := (i + 1) % COUNTER_LIMIT;
      if skipMonitor && i % loops == MONITOR_CPU {
        ModStep(i, loops);
        DivMod(1, loops, 0, 1);
        index := 1;
        loop, isMonitor := 1, false;
      } else {
        loop := i % loops;
        isMonitor := MONITOR_CPU == loop;
      }
    }

    /** One call per event loop, as in `stop` (skipping the monitor) and `del_event` (not skipping). */
    method Sweep(skipMonitor: bool) returns (picks: seq<nat>)
      requires loops >= 2 && index + loops < COUNTER_LIMIT
      modifies this`index
      ensures |picks| == loops
      ensures forall x | 0 <= x < loops :: Count(picks, x) == Share(x, skipMonitor)
    {
      picks := [];
      ghost var residues: seq<nat> := [];
      ghost var start := index % loops;
      for k := 0 to loops
        invariant |picks| == |residues| == k && index <= old(index) + k
        invariant Cyclic(residues, start, loops)
        invariant index % loops == if start + k < loops then start + k else start + k - loops
        invariant forall i | 0 <= i < k ::
                    picks[i] == if skipMonitor && residues[i] == MONITOR_CPU then 1 else residues[i]
      {
        ModStep(index, loops);
        residues := residues + [index % loops];
        var loop, _ := Next(skipMonitor);
        picks := picks + [loop];
      }
      forall x | 0 <= x < loops ensures Count(picks, x) == Share(x, skipMonitor) {
        SweepShares(picks, residues, start, loops, skipMonitor, x);
      }
    }
  }
}
