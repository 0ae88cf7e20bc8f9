// The timer list of open-coroutine-timer/src/lib.rs: a map from timestamps to arrival-ordered deques.
module Timer {
  import opened Constants

  const U64_MAX := 0xFFFF_FFFF_FFFF_FFFF

  datatype TimerEntry<T> = TimerEntry(timestamp: nat, inner: seq<T>)

  type Entries<T> = map<nat, TimerEntry<T>>

  /** What `insert` and `pop_front` maintain: every entry is filed under its own timestamp. */
  ghost predicate WellKeyed<T>(m: Entries<T>) {
    forall k | k in m :: m[k].timestamp == k
  }

  /** `get_timeout_time` for a duration of `dur` nanoseconds at clock `now`: it saturates. */
  function TimeoutTime(dur: nat, now: nat): (t: nat)
    requires now <= U64_MAX
    ensures now <= t <= U64_MAX && t <= dur + now
    ensures t == U64_MAX || t == dur + now
  {
    if dur > U64_MAX || dur + now > U64_MAX then U64_MAX else dur + now
  }

  lemma MinExists(s: set<nat>)
    requires s != {}
    ensures exists k :: k in s && forall j | j in s :: k <= j
    decreases s
  {
    var x :| x in s;
    var below := set j | j in s && j < x;
    if below == {} {
      forall j | j in s ensures x <= j {
        assert j !in below;
      }
    } else {
      assert x !in below && below < s;
      MinExists(below);
      var k :| k in below && forall j | j in below :: k <= j;
      forall j | j in s ensures k <= j {
        assert j < x ==> j in below;
      }
    }
  }

  /** The smallest key, as `first_key_value` of an ordered map finds it. */
  function MinKey(s: set<nat>): (k: nat)
    requires s != {}
    ensures k in s
    ensures forall j | j in s :: k <= j
  {
    MinExists(s);
    var k :| k in s && forall j | j in s :: k <= j;
    k
  }

  function Insert<T>(m: Entries<T>, t: nat, x: T): Entries<T> {
    if t in m then m[t := m[t].(inner := m[t].inner + [x])] else m[t := TimerEntry(t, [x])]
  }

  function Stamped<T>(t: nat, xs: seq<T>): (r: seq<(nat, T)>)
    ensures |r| == |xs|
    ensures forall i | 0 <= i < |r| :: r[i] == (t, xs[i])
  {
    seq(|xs|, i requires 0 <= i < |xs| => (t, xs[i]))
  }

  /** The content in the order in which repeated `pop_front` hands it out. */
  function Drained<T>(m: Entries<T>): seq<(nat, T)>
    decreases |m|
  {
    if m == map[] then [] else
    var k := MinKey(m.Keys);
    assert |m - {k}| < |m| by { RemoveShrinks(m, k); }
    Stamped(k, m[k].inner) + Drained(m - {k})
  }

  lemma RemoveShrinks<T>(m: Entries<T>, k: nat)
    requires k in m
    ensures |m - {k}| == |m| - 1
  {
    assert (m - {k}).Keys == m.Keys - {k};
  }

  // ---------- the reference: a stable sort of the insertion log ----------

  /** The values logged under timestamp `t`, in log order. */
  function Under<T>(log: seq<(nat, T)>, t: nat): seq<T> {
    if log == [] then []
    else (if log[0].0 == t then [log[0].1] else []) + Under(log[1..], t)
  }

  ghost predicate Sorted<T>(log: seq<(nat, T)>) {
    forall i, j | 0 <= i < j < |log| :: log[i].0 <= log[j].0
  }

  /** `out` is `log` sorted by timestamp with ties in log order: the same values under every timestamp. */
  ghost predicate StableSortOf<T>(out: seq<(nat, T)>, log: seq<(nat, T)>) {
    Sorted(out) && forall t :: Under(out, t) == Under(log, t)
  }

  function InsertAll<T>(m: Entries<T>, log: seq<(nat, T)>): Entries<T>
    decreases log
  {
    if log == [] then m else InsertAll(Insert(m, log[0].0, log[0].1), log[1..])
  }

  lemma {:induction false} UnderAppend<T>(a: seq<(nat, T)>, b: seq<(nat, T)>, t: nat)
    ensures Under(a + b, t) == Under(a, t) + Under(b, t)
  {
    if a == [] {
      assert a + b == b;
    } else {
      UnderAppend(a[1..], b, t);
      var head := if a[0].0 == t then [a[0].1] else [];
      assert (a + b)[0] == a[0] && (a + b)[1..] == a[1..] + b;
      assert head + (Under(a[1..], t) + Under(b, t)) == (head + Under(a[1..], t)) + Under(b, t);
    }
  }

  lemma {:induction false} UnderStamped<T>(k: nat, xs: seq<T>, t: nat)
    ensures Under(Stamped(k, xs), t) == if k == t then xs else []
  {
    if xs != [] {
      assert Stamped(k, xs)[1..] == Stamped(k, xs[1..]);
      UnderStamped(k, xs[1..], t);
    }
  }

  lemma {:induction false} UnderDrained<T>(m: Entries<T>, t: nat)
    ensures Under(Drained(m), t) == if t in m then m[t].inner else []
    decreases |m|
  {
    if m != map[] {
      var k := MinKey(m.Keys);
      RemoveShrinks(m, k);
      UnderDrained(m - {k}, t);
      UnderStamped(k, m[k].inner, t);
      UnderAppend(Stamped(k, m[k].inner), Drained(m - {k}), t);
    }
  }

  lemma {:induction false} DrainedKeys<T>(m: Entries<T>)
    ensures forall p | p in Drained(m) :: p.0 in m
    decreases |m|
  {
    if m != map[] {
      var k := MinKey(m.Keys);
      RemoveShrinks(m, k);
      DrainedKeys(m - {k});
    }
  }

  lemma {:induction false} DrainedSorted<T>(m: Entries<T>)
    ensures Sorted(Drained(m))
    decreases |m|
  {
    if m != map[] {
      var k := MinKey(m.Keys);
      RemoveShrinks(m, k);
      DrainedSorted(m - {k});
      DrainedKeys(m - {k});
      var head: seq<(nat, T)>, tail: seq<(nat, T)> := Stamped(k, m[k].inner), Drained(m - {k});
      var out: seq<(nat, T)> := head + tail;
      forall i, j | 0 <= i < j < |out| ensures out[i].0 <= out[j].0 {
        if i < |head| <= j {
          assert tail[j - |head|] in tail;
        }
      }
    }
  }

  lemma {:induction false} InsertAllUnder<T>(m: Entries<T>, log: seq<(nat, T)>, t: nat)
    ensures (if t in InsertAll(m, log) then InsertAll(m, log)[t].inner else [])
         == (if t in m then m[t].inner else []) + Under(log, t)
    decreases log
  {
    if log != [] {
      InsertAllUnder(Insert(m, log[0].0, log[0].1), log[1..], t);
    }
  }

  /** After any sequence of inserts, draining by `pop_front` yields the stable sort of that sequence. */
  lemma DrainIsStableSort<T(!new)>(log: seq<(nat, T)>)
    ensures StableSortOf(Drained(InsertAll(map[], log)), log)
  {
    var m := InsertAll(map[], log);
    DrainedSorted(m);
    forall t ensures Under(Drained(m), t) == Under(log, t) {
      UnderDrained(m, t);
      InsertAllUnder(map[], log, t);
    }
  }

  lemma {:induction false} SortedHead<T>(a: seq<(nat, T)>, t: nat)
    requires Sorted(a)
    requires forall p | p in a :: t < p.0
    ensures Under(a, t) == []
  {
    if a != [] {
      SortedHead(a[1..], t);
    }
  }

  lemma {:induction false} UnderNonEmpty<T>(a: seq<(nat, T)>, i: nat)
    requires i < |a|
    ensures Under(a, a[i].0) != []
  {
    if i > 0 {
      UnderNonEmpty(a[1..], i - 1);
    }
  }

  /** A log has only one stable sort, so `StableSortOf` determines the drained order completely. */
  lemma {:induction false} StableSortIsUnique<T(!new)>(a: seq<(nat, T)>, b: seq<(nat, T)>)
    requires Sorted(a) && Sorted(b)
    requires forall t :: Under(a, t) == Under(b, t)
    ensures a == b
  {
    if a == [] {
      if b != [] {
        UnderNonEmpty(b, 0);
        assert false;
      }
    } else if b == [] {
      UnderNonEmpty(a, 0);
      assert false;
    } else {
      UnderNonEmpty(a, 0);
      UnderNonEmpty(b, 0);
      if a[0].0 < b[0].0 {
        SortedHead(b, a[0].0);
        assert false;
      } else if b[0].0 < a[0].0 {
        SortedHead(a, b[0].0);
        assert false;
      }
      var k := a[0].0;
      assert Under(a, k) == [a[0].1] + Under(a[1..], k);
      assert Under(b, k) == [b[0].1] + Under(b[1..], k);
      assert a[0].1 == Under(a, k)[0] == Under(b, k)[0] == b[0].1;
      forall t ensures Under(a[1..], t) == Under(b[1..], t) {
        assert Under(a, t) == Under(b, t);
        var head := if a[0].0 == t then [a[0].1] else [];
        assert Under(a[1..], t) == Under(a, t)[|head|..];
        assert Under(b[1..], t) == Under(b, t)[|head|..];
      }
      StableSortIsUnique(a[1..], b[1..]);
      assert a == [a[0]] + a[1..] && b == [b[0]] + b[1..];
    }
  }

  // ---------- splitting at a cut, as the scheduler consumes the list ----------

  /** The values filed at or before `cut`, in (timestamp, insertion) order. */
  function Due<T>(m: Entries<T>, cut: nat): seq<T>
    decreases |m|
  {
    if m == map[] || cut < MinKey(m.Keys) then [] else
    var k := MinKey(m.Keys);
    assert |m - {k}| < |m| by { RemoveShrinks(m, k); }
    m[k].inner + Due(m - {k}, cut)
  }

  function Later<T>(m: Entries<T>, cut: nat): Entries<T> {
    map k | k in m && cut < k :: m[k]
  }

  /** All values held, as a bag. */
  ghost function Held<T>(m: Entries<T>): multiset<T>
    decreases |m|
  {
    if m == map[] then multiset{} else
    var k := MinKey(m.Keys);
    assert |m - {k}| < |m| by { RemoveShrinks(m, k); }
    multiset(m[k].inner) + Held(m - {k})
  }

  lemma {:induction false} HeldWithout<T>(m: Entries<T>, k: nat)
    requires k in m
    ensures Held(m) == multiset(m[k].inner) + Held(m - {k})
    decreases |m|
  {
    var h := MinKey(m.Keys);
    RemoveShrinks(m, h);
    if h != k {
      RemoveShrinks(m, k);
      HeldWithout(m - {h}, k);
      assert h in (m - {k}).Keys && (m - {k}).Keys <= m.Keys;
      assert MinKey((m - {k}).Keys) == h;
      assert m - {h} - {k} == m - {k} - {h};
    }
  }

  lemma HeldInsert<T>(m: Entries<T>, t: nat, x: T)
    ensures Held(Insert(m, t, x)) == Held(m) + multiset{x}
  {
    hide Held;
    var n := Insert(m, t, x);
    HeldWithout(n, t);
    assert n - {t} == m - {t};
    if t in m {
      HeldWithout(m, t);
      assert multiset(m[t].inner + [x]) == multiset(m[t].inner) + multiset{x};
    } else {
      assert m - {t} == m;
    }
  }

  lemma {:induction false} HeldSplit<T>(m: Entries<T>, cut: nat)
    ensures Held(m) == multiset(Due(m, cut)) + Held(Later(m, cut))
    decreases |m|
  {
    if m == map[] {
      assert Later(m, cut) == m;
    } else {
      var k := MinKey(m.Keys);
      if cut < k {
        assert Later(m, cut) == m;
      } else {
        RemoveShrinks(m, k);
        HeldSplit(m - {k}, cut);
        assert Later(m - {k}, cut) == Later(m, cut);
      }
    }
  }

  lemma {:induction false} InDue<T>(m: Entries<T>, cut: nat, x: T)
    ensures x in Due(m, cut) <==> exists k :: k in m && k <= cut && x in m[k].inner
    decreases |m|
  {
    if m != map[] {
      var k := MinKey(m.Keys);
      if k <= cut {
        RemoveShrinks(m, k);
        InDue(m - {k}, cut, x);
        assert x in Due(m, cut) <==> x in m[k].inner || x in Due(m - {k}, cut);
        if j :| j in m && j <= cut && x in m[j].inner && j != k {
          assert j in m - {k};
        }
      }
    }
  }

  lemma {:induction false} InHeld<T>(m: Entries<T>, x: T)
    ensures x in Held(m) <==> exists k :: k in m && x in m[k].inner
    decreases |m|
  {
    if m != map[] {
      var k := MinKey(m.Keys);
      RemoveShrinks(m, k);
      InHeld(m - {k}, x);
      if j :| j in m && x in m[j].inner && j != k {
        assert j in m - {k};
      }
    }
  }

  /** `Due` is the leading part of the drained order: exactly the stamps up to the cut. */
  lemma {:induction false} DueIsDrainedPrefix<T>(m: Entries<T>, cut: nat)
    ensures |Due(m, cut)| <= |Drained(m)|
    ensures forall i | 0 <= i < |Due(m, cut)| :: Due(m, cut)[i] == Drained(m)[i].1 && Drained(m)[i].0 <= cut
    ensures Drained(m)[|Due(m, cut)|..] == Drained(Later(m, cut))
    decreases |m|
  {
    if m == map[] {
      assert Later(m, cut) == m;
    } else {
      var k := MinKey(m.Keys);
      if cut < k {
        assert Later(m, cut) == m;
      } else {
        RemoveShrinks(m, k);
        DueIsDrainedPrefix(m - {k}, cut);
        assert Later(m - {k}, cut) == Later(m, cut);
      }
    }
  }

  /** The timestamps that occur. */
  function StampsIn<T>(log: seq<(nat, T)>): set<nat> {
    set i | 0 <= i < |log| :: log[i].0
  }

  /** Every entry holds something, as `insert` and `pop_front` leave it. */
  ghost predicate AllFilled<T>(m: Entries<T>) {
    forall k | k in m :: m[k].inner != []
  }

  lemma {:induction false} UnderFinds<T>(log: seq<(nat, T)>, t: nat) returns (i: nat)
    requires Under(log, t) != []
    ensures i < |log| && log[i].0 == t
  {
    if log[0].0 == t {
      i := 0;
    } else {
      i := UnderFinds(log[1..], t);
      i := i + 1;
    }
  }

  lemma DrainedStamps<T>(m: Entries<T>)
    requires AllFilled(m)
    ensures StampsIn(Drained(m)) == m.Keys
  {
    var d := Drained(m);
    forall k | k in m ensures k in StampsIn(d) {
      UnderDrained(m, k);
      var i := UnderFinds(d, k);
      assert d[i].0 == k;
    }
    DrainedKeys(m);
    forall k | k in StampsIn(d) ensures k in m {
      var i :| 0 <= i < |d| && d[i].0 == k;
      assert d[i] in d;
    }
  }

  class TimerList<T> {
    var entries: Entries<T>

    ghost predicate Valid()
      reads this
    {
      WellKeyed(entries)
    }

    constructor ()
      ensures Valid() && entries == map[]
    {
      entries := map[];
    }

    /** The "concurrent, just retry" branch cannot run: the key was absent when it was looked up. */
    method InsertAt(timestamp: nat, t: T)
      requires Valid()
      modifies this
      ensures Valid() && entries == Insert(old(entries), timestamp, t)
      ensures Held(entries) == old(Held(entries)) + multiset{t}
    {
      HeldInsert(entries, timestamp, t);
      if timestamp in entries {
        entries := entries[timestamp := entries[timestamp].(inner := entries[timestamp].inner + [t])];
        return;
      }
      var displaced := timestamp in entries;
      entries := entries[timestamp := TimerEntry(timestamp, [t])];
      if displaced {
        assert false;
      }
    }

    method Front() returns (r: Option<(nat, TimerEntry<T>)>)
      requires Valid()
      ensures r.None? <==> entries == map[]
      ensures r.Some? ==>
                && r.value.0 in entries && r.value.1 == entries[r.value.0]
                && r.value.1.timestamp == r.value.0
                && forall k | k in entries :: r.value.0 <= k
    {
      if entries == map[] {
        return None;
      }
      var k := MinKey(entries.Keys);
      return Some((k, entries[k]));
    }

    /** Takes the whole first entry: the next block of the drained order. */
    method PopFront() returns (r: Option<(nat, TimerEntry<T>)>)
      requires Valid()
      modifies this
      ensures Valid()
      ensures r.None? <==> old(entries) == map[]
      ensures r.None? ==> entries == old(entries)
      ensures r.Some? ==>
                && r.value.1.timestamp == r.value.0
                && old(Drained(entries)) == Stamped(r.value.0, r.value.1.inner) + Drained(entries)
                && forall k | k in entries :: r.value.0 < k
    {
      if entries == map[] {
        return None;
      }
      var k := MinKey(entries.Keys);
      r := Some((k, entries[k]));
      entries := entries - {k};
    }

    /** The accumulator loop of `len` over the values of the map. */
    method Len() returns (total: nat)
      requires Valid()
      ensures total == |Drained(entries)|
    {
      total := 0;
      var rest := entries;
      while rest != map[]
        invariant total + |Drained(rest)| == |Drained(entries)|
        decreases |rest|
      {
        var k := MinKey(rest.Keys);
        RemoveShrinks(rest, k);
        total := total + |rest[k].inner|;
        rest := rest - {k};
      }
    }

    /** The early-exit loop of `is_empty`; it agrees with the length of the drained order. */
    method IsEmpty() returns (r: bool)
      requires Valid()
      ensures r <==> Drained(entries) == []
    {
      var rest := entries;
      while rest != map[]
        invariant Drained(rest) == Drained(entries)
        decreases |rest|
      {
        var k := MinKey(rest.Keys);
        RemoveShrinks(rest, k);
        if rest[k].inner != [] {
          return false;
        }
        rest := rest - {k};
      }
      return true;
    }

    /** How many timestamps the drained order has, that is how many `pop_front` calls empty the list. */
    method EntryLen() returns (n: nat)
      requires Valid()
      ensures n == |entries|
      ensures AllFilled(entries) ==> n == |StampsIn(Drained(entries))|
    {
      n := |entries|;
      assert |entries| == |entries.Keys|;
      if AllFilled(entries) {
        DrainedStamps(entries);
      }
    }

    /** Draining the list by `pop_front` until nothing is left. */
    method Drain() returns (out: seq<(nat, T)>)
      requires Valid()
      modifies this
      ensures Valid() && entries == map[]
      ensures out == old(Drained(entries))
    {
      out := [];
      while entries != map[]
        invariant Valid()
        invariant old(Drained(entries)) == out + Drained(entries)
        decreases |entries|
      {
        ghost var before := entries;
        var k := MinKey(entries.Keys);
        RemoveShrinks(entries, k);
        var e := entries[k];
        entries := entries - {k};
        out := out + Stamped(k, e.inner);
      }
    }
  }
}
