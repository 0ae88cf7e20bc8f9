// The thread-local stack of current system calls (`Syscall::init_current` and `clean_current` in
// constants.rs), pushed and popped by the hooks of all coroutines that one thread runs.
module SyscallStack {
  import opened Constants

  type Id = nat

  datatype Event = Enters(id: Id, call: Syscall) | Leaves(id: Id)

  /** What the stack holds after the events, newest first, each call with the coroutine that pushed it. */
  function Stack(es: seq<Event>): seq<(Id, Syscall)> {
    if es == [] then []
    else
      var before := Stack(es[..|es| - 1]);
      match es[|es| - 1]
      case Enters(id, call) => [(id, call)] + before
      case Leaves(_) => if before == [] then [] else before[1..]
  }

  function Without(open: seq<(Id, Syscall)>, id: Id): seq<(Id, Syscall)> {
    if open == [] then []
    else if open[0].0 == id then open[1..]
    else [open[0]] + Without(open[1..], id)
  }

  /** The calls that are really under way, newest first: whoever leaves takes its own call with it. */
  function Open(es: seq<Event>): seq<(Id, Syscall)> {
    if es == [] then []
    else
      var before := Open(es[..|es| - 1]);
      match es[|es| - 1]
      case Enters(id, call) => [(id, call)] + before
      case Leaves(id) => Without(before, id)
  }

  predicate IsOpen(open: seq<(Id, Syscall)>, id: Id) {
    exists i | 0 <= i < |open| :: open[i].0 == id
  }

  /** A coroutine is in at most one hooked call at a time and leaves only what it entered. */
  predicate Sane(es: seq<Event>) {
    forall k | 0 <= k < |es| :: es[k].Enters? <==> !IsOpen(Open(es[..k]), es[k].id)
  }

  // ---------- which calls are on the stack ----------

  /** The calls alone, as the source keeps them. */
  function Calls(s: seq<(Id, Syscall)>): (r: seq<Syscall>)
    ensures |r| == |s| && forall i | 0 <= i < |s| :: r[i] == s[i].1
  {
    if s == [] then [] else [s[0].1] + Calls(s[1..])
  }

  /** Where the call of `id` is among the calls under way. */
  function IndexOf(open: seq<(Id, Syscall)>, id: Id): (i: nat)
    requires IsOpen(open, id)
    ensures i < |open| && open[i].0 == id
    ensures forall j | 0 <= j < i :: open[j].0 != id
  {
    if open[0].0 == id then 0
    else
      assert IsOpen(open[1..], id) by {
        var i :| 0 <= i < |open| && open[i].0 == id;
        assert open[1..][i - 1].0 == id;
      }
      1 + IndexOf(open[1..], id)
  }

  lemma {:induction false} WithoutIs(open: seq<(Id, Syscall)>, id: Id)
    requires IsOpen(open, id)
    ensures var i := IndexOf(open, id); Without(open, id) == open[..i] + open[i + 1..]
    decreases |open|
  {
    if open[0].0 != id {
      var i := IndexOf(open, id);
      assert IsOpen(open[1..], id) by {
        assert open[1..][i - 1].0 == id;
      }
      WithoutIs(open[1..], id);
      assert open[..i] == [open[0]] + open[1..][..i - 1];
    }
  }

  /** The event at `k` leaves a call although a call entered later, and different from it, is still under way. */
  predicate Overtakes(es: seq<Event>, k: nat) {
    && k < |es| && es[k].Leaves?
    && var open := Open(es[..k]);
       && IsOpen(open, es[k].id)
       && var i := IndexOf(open, es[k].id);
          exists j | 0 <= j < i :: open[j].1 != open[i].1
  }

  lemma SaneHead(es: seq<Event>, k: nat)
    requires Sane(es) && k <= |es|
    ensures Sane(es[..k])
  {
    forall i | 0 <= i < k ensures es[..k][i].Enters? <==> !IsOpen(Open(es[..k][..i]), es[..k][i].id) {
      assert es[..k][..i] == es[..i];
    }
  }

  /** Removing the head or a later element leaves the same sequence exactly if all elements in between are equal. */
  lemma SameRemoval(v: seq<Syscall>, i: nat)
    requires i < |v|
    ensures v[1..] == v[..i] + v[i + 1..] <==> forall j | 0 <= j < i :: v[j] == v[i]
  {
    var w := v[..i] + v[i + 1..];
    if v[1..] == w {
      forall j | 0 <= j < i ensures v[j] == v[i] {
        ChainEqual(v, w, j, i);
      }
    } else {
      assert |v[1..]| == |w|;
      var k :| 0 <= k < |w| && v[1..][k] != w[k];
      assert k < i && v[k + 1] != v[k];
    }
  }

  lemma {:induction false} ChainEqual(v: seq<Syscall>, w: seq<Syscall>, j: nat, i: nat)
    requires j <= i < |v| && w == v[..i] + v[i + 1..] && v[1..] == w
    ensures v[j] == v[i]
    decreases i - j
  {
    if j < i {
      assert v[1..][j] == v[j + 1] && w[j] == v[j];
      ChainEqual(v, w, j + 1, i);
    }
  }

  /** One event: if the calls agreed before it, they agree after it exactly if it does not overtake. */
  lemma StepAgrees(es: seq<Event>, k: nat)
    requires Sane(es) && k < |es| && Calls(Stack(es[..k])) == Calls(Open(es[..k]))
    ensures Calls(Stack(es[..k + 1])) == Calls(Open(es[..k + 1])) <==> !Overtakes(es, k)
  {
    var before, e := es[..k], es[k];
    assert es[..k + 1][..k] == before && es[..k + 1][k] == e;
    var stack, open := Stack(before), Open(before);
    match e {
      case Enters(id, call) =>
        assert Stack(es[..k + 1]) == [(id, call)] + stack && Open(es[..k + 1]) == [(id, call)] + open;
        hide Stack, Open, Sane;
        CallsEnter(stack, (id, call));
        CallsEnter(open, (id, call));
      case Leaves(id) =>
        assert IsOpen(open, id);
        assert Open(es[..k + 1]) == Without(open, id);
        assert |Calls(stack)| == |Calls(open)|;
        assert Stack(es[..k + 1]) == stack[1..];
        hide Stack, Open, Sane;
        WithoutIs(open, id);
        CallsLeave(stack, open, IndexOf(open, id));
    }
  }

  lemma CallsEnter(s: seq<(Id, Syscall)>, e: (Id, Syscall))
    ensures Calls([e] + s) == [e.1] + Calls(s)
  {
    assert ([e] + s)[1..] == s;
  }

  lemma CallsCut(s: seq<(Id, Syscall)>, i: nat)
    requires i < |s|
    ensures Calls(s[..i] + s[i + 1..]) == Calls(s)[..i] + Calls(s)[i + 1..]
  {
  }

  /** Popping the head of one, and taking the call at `i` out of the other. */
  lemma CallsLeave(stack: seq<(Id, Syscall)>, open: seq<(Id, Syscall)>, i: nat)
    requires Calls(stack) == Calls(open) && i < |open| && |stack| == |open|
    ensures Calls(stack[1..]) == Calls(open[..i] + open[i + 1..]) <==> forall j | 0 <= j < i :: open[j].1 == open[i].1
  {
    CallsCut(stack, 0);
    assert stack[..0] + stack[1..] == stack[1..];
    CallsCut(open, i);
    SameRemoval(Calls(open), i);
  }

  /** The stack holds the calls under way, at every moment. */
  predicate Agree(es: seq<Event>, k: nat) {
    k <= |es| ==> Calls(Stack(es[..k])) == Calls(Open(es[..k]))
  }

  /**
   * At every moment the stack holds exactly the calls under way, if and only if nobody leaves a call
   * while a different call, entered later, is still under way.
   */
  lemma CallsAgreeIff(es: seq<Event>)
    requires Sane(es)
    ensures (forall k: nat :: Agree(es, k)) <==> (forall k: nat :: !Overtakes(es, k))
  {
    if forall k: nat :: Agree(es, k) {
      forall k: nat ensures !Overtakes(es, k) {
        if k < |es| {
          assert Agree(es, k) && Agree(es, k + 1);
          StepAgrees(es, k);
        }
      }
    }
    if forall k: nat :: !Overtakes(es, k) {
      forall k: nat ensures Agree(es, k) {
        AgreeUpTo(es, k);
      }
    }
  }

  lemma {:induction false} AgreeUpTo(es: seq<Event>, k: nat)
    requires Sane(es) && forall j: nat :: !Overtakes(es, j)
    ensures Agree(es, k)
    decreases k
  {
    if k == 0 {
      assert es[..0] == [];
    } else if k <= |es| {
      AgreeUpTo(es, k - 1);
      StepAgrees(es, k - 1);
    }
  }

  // ---------- who pops what ----------

  /** The event at `k` leaves a call although another coroutine has entered one since and is still in it. */
  predicate OutOfTurn(es: seq<Event>, k: nat) {
    k < |es| && es[k].Leaves? && Open(es[..k]) != [] && Open(es[..k])[0].0 != es[k].id
  }

  /** At event `k` the hook pops a call that another coroutine pushed. */
  predicate PopsForeign(es: seq<Event>, k: nat) {
    k < |es| && es[k].Leaves? && Stack(es[..k]) != [] && Stack(es[..k])[0].0 != es[k].id
  }

  /** As long as everybody leaves in turn, the stack holds exactly the calls under way, owners included. */
  lemma {:induction false} StackIsOpen(es: seq<Event>)
    requires Sane(es) && forall k: nat :: !OutOfTurn(es, k)
    ensures Stack(es) == Open(es)
    decreases |es|
  {
    if es != [] {
      var n := |es| - 1;
      var init := es[..n];
      SaneHead(es, n);
      forall k: nat ensures !OutOfTurn(init, k) {
        assert k < n ==> init[..k] == es[..k];
        assert OutOfTurn(init, k) ==> OutOfTurn(es, k);
      }
      StackIsOpen(init);
      assert !OutOfTurn(es, n);
      assert es[n].Enters? <==> !IsOpen(Open(es[..n]), es[n].id);
    }
  }

  /** Every hook pops what it pushed if and only if everybody leaves in turn. */
  lemma OwnPopsIff(es: seq<Event>)
    requires Sane(es)
    ensures (forall k: nat :: !PopsForeign(es, k)) <==> (forall k: nat :: !OutOfTurn(es, k))
  {
    if k: nat :| OutOfTurn(es, k) || PopsForeign(es, k) {
      var j := First(es, k);
      SaneHead(es, j);
      forall i: nat ensures !OutOfTurn(es[..j], i) {
        if i < j {
          assert es[..j][..i] == es[..i];
          assert !OutOfTurn(es, i);
        }
      }
      StackIsOpen(es[..j]);
      assert OutOfTurn(es, j) && PopsForeign(es, j);
    }
  }

  /** The first event at which something goes wrong. */
  lemma First(es: seq<Event>, k: nat) returns (j: nat)
    requires OutOfTurn(es, k) || PopsForeign(es, k)
    ensures OutOfTurn(es, j) || PopsForeign(es, j)
    ensures forall i: nat | i < j :: !OutOfTurn(es, i) && !PopsForeign(es, i)
    decreases k
  {
    if i: nat :| i < k && (OutOfTurn(es, i) || PopsForeign(es, i)) {
      j := First(es, i);
    } else {
      j := k;
    }
  }

  // ---------- inputs ----------

  /** One input: coroutine 1 enters `read`, coroutine 2 `write`, and 1 leaves first; then `read` stays current. */
  lemma CrossedCalls()
    ensures var es := [Enters(1, Read), Enters(2, Write), Leaves(1)];
            Sane(es) && Overtakes(es, 2) && Calls(Open(es)) == [Write] && Calls(Stack(es)) == [Read]
  {
    var es := [Enters(1, Read), Enters(2, Write), Leaves(1)];
    TwoEntered();
    assert es[..2] == [Enters(1, Read), Enters(2, Write)] && es[..1] == [Enters(1, Read)] && es[..0] == [];
    var open := Open(es[..2]);
    assert open[1].0 == 1 && open[0].1 != open[1].1;
    assert IsOpen(open, 1) && IndexOf(open, 1) == 1;
    WithoutIs(open, 1);
    assert Open(es) == open[..1] + open[2..];
    assert Stack(es) == Stack(es[..2])[1..];
    assert Sane(es) by {
      hide Stack;
    }
    hide Open, Stack, Sane;
    assert open[..1] + open[2..] == [(2, Write)] && [(2, Write), (1, Read)][1..] == [(1, Read)];
  }

  /**
   * Without any overtaking, the current call is the one entered last: while both are under way,
   * coroutine 1 inside `read` finds `write` current.
   */
  lemma TwoEntered()
    ensures var es := [Enters(1, Read), Enters(2, Write)];
            && Sane(es) && (forall k: nat :: !Overtakes(es, k))
            && Open(es) == [(2, Write), (1, Read)] && Stack(es) == [(2, Write), (1, Read)]
  {
    var es := [Enters(1, Read), Enters(2, Write)];
    assert es[..0] == [] && es[..1] == [Enters(1, Read)] && es[..1][..0] == [];
    assert Open(es[..1]) == [(1, Read)] && Stack(es[..1]) == [(1, Read)];
    assert Open(es) == [(2, Write)] + Open(es[..1]) && Stack(es) == [(2, Write)] + Stack(es[..1]);
  }
}
