// The retry loops of the hooked reads and writes (`impl_nio_buf!`, `impl_nio_iovec!`,
// `impl_nio_msghdr!` in syscall/nio.rs) against every script of kernel replies.
module NioRetry {

  /** One answer of the inner call; after `WouldBlock` the loop waits for the event loop, which may fail. */
  datatype Reply = Moved(n: nat) | WouldBlock(waitOk: bool) | Interrupted | Failed

  datatype Errno = Clear | Again | Intr | Other

  /** `Unfinished` when the script of replies runs out. */
  datatype Outcome = Returned(r: int) | Unfinished

  datatype Iovec = Iovec(base: nat, len: nat)

  // ---------- what the loops must do ----------

  /** Replies after which the same call is made again. */
  predicate Retried(k: Reply) {
    k == Interrupted || k == WouldBlock(true)
  }

  function Retries(script: seq<Reply>): nat {
    if script == [] || !Retried(script[0]) then 0 else 1 + Retries(script[1..])
  }

  function Value(k: Reply): int {
    if k.Moved? then k.n else -1
  }

  /** All bytes the kernel moved. */
  function TotalMoved(script: seq<Reply>): nat {
    if script == [] then 0
    else TotalMoved(script[..|script| - 1]) + if script[|script| - 1].Moved? then script[|script| - 1].n else 0
  }

  /** What the loop returns for a nonempty region: the value of the first reply that is not retried. */
  function Decided(script: seq<Reply>): Outcome {
    if Retries(script) < |script| then Returned(Value(script[Retries(script)])) else Unfinished
  }

  function CallsMade(script: seq<Reply>): nat {
    if Retries(script) < |script| then Retries(script) + 1 else |script|
  }

  lemma {:induction false} RetriesAt(script: seq<Reply>, k: nat)
    requires k <= |script| && forall i | 0 <= i < k :: Retried(script[i])
    ensures Retries(script) >= k
    ensures k < |script| && !Retried(script[k]) ==> Retries(script) == k
    ensures k == |script| ==> Retries(script) == k
    decreases k
  {
    if k > 0 {
      RetriesAt(script[1..], k - 1);
    }
  }

  lemma {:induction false} RetriesMoveNothing(script: seq<Reply>, k: nat)
    requires k <= |script| && forall i | 0 <= i < k :: Retried(script[i])
    ensures TotalMoved(script[..k]) == 0
    decreases k
  {
    if k > 0 {
      RetriesMoveNothing(script, k - 1);
      assert script[..k][..k - 1] == script[..k - 1];
    }
  }

  lemma {:induction false} RetriesBounded(script: seq<Reply>)
    ensures Retries(script) <= |script|
    ensures forall i | 0 <= i < Retries(script) :: Retried(script[i])
    ensures Retries(script) < |script| ==> !Retried(script[Retries(script)])
    decreases |script|
  {
    if script != [] && Retried(script[0]) {
      RetriesBounded(script[1..]);
    }
  }

  /**
   * What the loop does with each reply, whatever follows: EINTR and a block that was waited out are
   * followed by one more call, everything else decides.
   */
  lemma RetryLaws(s: seq<Reply>, n: nat)
    ensures Decided([]) == Unfinished && CallsMade([]) == 0
    ensures Decided([Interrupted] + s) == Decided([WouldBlock(true)] + s) == Decided(s)
    ensures CallsMade([Interrupted] + s) == CallsMade([WouldBlock(true)] + s) == CallsMade(s) + 1
    ensures Decided([WouldBlock(false)] + s) == Decided([Failed] + s) == Returned(-1)
    ensures CallsMade([WouldBlock(false)] + s) == CallsMade([Failed] + s) == 1
    ensures Decided([Moved(n)] + s) == Returned(n) && CallsMade([Moved(n)] + s) == 1
  {
    assert ([Interrupted] + s)[1..] == s && ([WouldBlock(true)] + s)[1..] == s;
    RetriesBounded(s);
  }

  /** Whatever the kernel replies, the returned count is all that was moved, and -1 means that nothing was. */
  lemma ReturnsWhatMoved(script: seq<Reply>)
    requires Decided(script).Returned?
    ensures TotalMoved(script[..CallsMade(script)]) == if Decided(script).r == -1 then 0 else Decided(script).r
  {
    RetriesBounded(script);
    var k := Retries(script);
    RetriesMoveNothing(script, k);
    assert script[..k + 1][..k] == script[..k];
  }

  /** A whole region is transferred exactly when the one successful call transfers it whole. */
  lemma WholeOnlyAtOnce(script: seq<Reply>, length: nat)
    requires Decided(script).Returned? && length > 0
    ensures TotalMoved(script[..CallsMade(script)]) == length <==>
            exists i | 0 <= i < CallsMade(script) :: script[i] == Moved(length)
  {
    ReturnsWhatMoved(script);
    RetriesBounded(script);
    var k := Retries(script);
    if Value(script[k]) == length {
      assert script[k] == Moved(length);
    }
  }

  /** So a call that moves 1 byte of 2 is the last one, and 1 is returned. */
  lemma PartialTransferStops()
    ensures Decided([Moved(1)]) == Returned(1) && CallsMade([Moved(1)]) == 1 && TotalMoved([Moved(1)][..1]) != 2
  {
    assert [Moved(1)][..1] == [Moved(1)];
    ReturnsWhatMoved([Moved(1)]);
  }

  // ---------- one region ----------

  /** The end of one iteration, common to the loops: whether to go on, and `r`, `done` and `errno` after it. */
  method AfterCall(reply: Reply, done: nat, length: nat, isRead: bool) returns (goOn: bool, r: int, done': nat)
    requires done == 0 < length
    ensures goOn <==> reply == Interrupted || reply == WouldBlock(true)
    ensures goOn ==> done' == 0
    ensures r == if reply.Moved? then reply.n else -1
  {
    var errno;
    match reply {
      case Moved(n) => r, errno := n, Clear;
      case WouldBlock(_) => r, errno := -1, Again;
      case Interrupted => r, errno := -1, Intr;
      case Failed => r, errno := -1, Other;
    }
    done' := done;
    if r != -1 {
      errno := Clear;
      done' := done' + r;
      if done' >= length || (isRead && r == 0) {
        return false, done', done';
      }
    }
    if errno == Again {
      return reply.waitOk, r, done';
    }
    goOn := errno == Intr;
  }

  /** `impl_nio_buf!`: every call is made on the original region. */
  method RetryBuffer(buffer: nat, length: nat, isRead: bool, script: seq<Reply>)
    returns (out: Outcome, calls: seq<Iovec>)
    ensures length == 0 ==> out == Returned(0) && calls == []
    ensures length > 0 ==> out == Decided(script) && |calls| == CallsMade(script)
    ensures forall c <- calls :: c == Iovec(buffer, length)
  {
    calls := [];
    var done, r := 0, 0;
    var k := 0;
    while done < length
      invariant done == 0 && r == (if k == 0 then 0 else -1) && (length == 0 ==> k == 0)
      invariant k == |calls| <= |script| && forall i | 0 <= i < k :: Retried(script[i])
      invariant forall c <- calls :: c == Iovec(buffer, length)
      decreases |script| - k
    {
      RetriesAt(script, k);
      if k == |script| {
        return Unfinished, calls;
      }
      calls := calls + [Iovec(buffer + done, length - done)];
      var goOn;
      goOn, r, done := AfterCall(script[k], done, length, isRead);
      k := k + 1;
      if !goOn {
        break;
      }
    }
    return Returned(r), calls;
  }

  // ---------- a list of segments ----------

  function Len(segs: seq<Iovec>): nat {
    if segs == [] then 0 else Len(segs[..|segs| - 1]) + segs[|segs| - 1].len
  }

  function LeadingEmpty(segs: seq<Iovec>): (n: nat)
    ensures n <= |segs|
  {
    if segs == [] || segs[0].len > 0 then 0 else 1 + LeadingEmpty(segs[1..])
  }

  /** The addresses of the bytes of a list of segments, in order. */
  function Bytes(segs: seq<Iovec>): seq<nat> {
    if segs == [] then [] else seq(segs[0].len, i requires 0 <= i => segs[0].base + i) + Bytes(segs[1..])
  }

  lemma {:induction false} LeadingEmptyFits(segs: seq<Iovec>)
    ensures forall i | 0 <= i < LeadingEmpty(segs) :: segs[i].len == 0
    ensures LeadingEmpty(segs) < |segs| ==> segs[LeadingEmpty(segs)].len > 0
    ensures Bytes(segs[LeadingEmpty(segs)..]) == Bytes(segs)
    decreases |segs|
  {
    if segs != [] && segs[0].len == 0 {
      LeadingEmptyFits(segs[1..]);
      assert segs[LeadingEmpty(segs)..] == segs[1..][LeadingEmpty(segs[1..])..];
    } else {
      assert segs[0..] == segs;
    }
  }

  /** The running totals of the lengths. */
  ghost predicate AreTotals(pices: seq<nat>, segs: seq<Iovec>) {
    |pices| == |segs| && forall i | 0 <= i < |segs| :: pices[i] == Len(segs[..i + 1])
  }

  method Totals(segs: seq<Iovec>) returns (length: nat, pices: seq<nat>)
    ensures length == Len(segs) && AreTotals(pices, segs)
  {
    length, pices := 0, [];
    var i := 0;
    while i < |segs|
      invariant i == |pices| <= |segs| && length == Len(segs[..i])
      invariant forall j | 0 <= j < i :: pices[j] == Len(segs[..j + 1])
    {
      assert segs[..i + 1][..i] == segs[..i];
      length := length + segs[i].len;
      pices := pices + [length];
      i := i + 1;
    }
    assert segs[..i] == segs;
  }

  /** The first segment not wholly done, or 0. */
  method FromIndex(pices: seq<nat>, done: nat) returns (from: nat)
    ensures forall i | 0 <= i < from :: i < |pices| && pices[i] <= done
    ensures (from < |pices| && done < pices[from]) || (from == 0 && forall i | 0 <= i < |pices| :: pices[i] <= done)
  {
    from := 0;
    var i := 0;
    while i < |pices|
      invariant i <= |pices| && from == 0 && forall j | 0 <= j < i :: pices[j] <= done
    {
      if done < pices[i] {
        return i;
      }
      i := i + 1;
    }
  }

  lemma {:induction false} TotalsOfEmpty(segs: seq<Iovec>, i: nat)
    requires i <= |segs| && forall j | 0 <= j < i :: segs[j].len == 0
    ensures Len(segs[..i]) == 0
    decreases i
  {
    if i > 0 {
      TotalsOfEmpty(segs, i - 1);
      assert segs[..i][..i - 1] == segs[..i - 1];
    }
  }

  lemma {:induction false} SomethingLeft(segs: seq<Iovec>)
    requires Len(segs) > 0
    ensures LeadingEmpty(segs) < |segs|
  {
    LeadingEmptyFits(segs);
    if LeadingEmpty(segs) == |segs| {
      assert segs[..|segs|] == segs;
      TotalsOfEmpty(segs, |segs|);
    }
  }

  /**
   * The working copy of the segments and their totals: `dropped` leading empty segments are gone,
   * nothing else has changed.
   */
  ghost predicate Working(vec: seq<Iovec>, pices: seq<nat>, segs: seq<Iovec>, dropped: nat) {
    && dropped <= LeadingEmpty(segs) < |segs|
    && vec == segs[dropped..] && |pices| == |vec|
    && forall i | 0 <= i < |pices| :: pices[i] == Len(segs[..dropped + i + 1])
  }

  /** With nothing done, the totals are 0 up to the first nonempty segment. */
  lemma TotalsWhenNothingDone(vec: seq<Iovec>, pices: seq<nat>, segs: seq<Iovec>, dropped: nat)
    requires Working(vec, pices, segs, dropped)
    ensures forall i | 0 <= i < LeadingEmpty(segs) - dropped :: pices[i] == 0
    ensures pices[LeadingEmpty(segs) - dropped] > 0
  {
    LeadingEmptyFits(segs);
    var e := LeadingEmpty(segs);
    forall i | 0 <= i < e - dropped ensures pices[i] == 0 {
      TotalsOfEmpty(segs, dropped + i + 1);
    }
    TotalsOfEmpty(segs, e);
    assert segs[..e + 1][..e] == segs[..e];
    assert pices[e - dropped] == Len(segs[..dropped + (e - dropped) + 1]);
  }

  /** Find the place, drop what is done, shift the first segment: the arguments of the next call. */
  method NextArguments(vec: seq<Iovec>, pices: seq<nat>, done: nat, ghost segs: seq<Iovec>, ghost dropped: nat)
    returns (vec': seq<Iovec>, pices': seq<nat>)
    requires done == 0 && Working(vec, pices, segs, dropped)
    ensures vec' == segs[LeadingEmpty(segs)..] && Working(vec', pices', segs, LeadingEmpty(segs))
  {
    TotalsWhenNothingDone(vec, pices, segs, dropped);
    var from := FromIndex(pices, done);
    assert from == LeadingEmpty(segs) - dropped;
    var offset := if from > 0 then SaturatingSub(done, pices[from - 1]) else done;
    vec', pices' := vec[from..], pices[from..];
    vec' := vec'[0 := Iovec(vec'[0].base + offset, vec'[0].len - offset)];
  }

  function SaturatingSub(a: nat, b: nat): nat {
    if a < b then 0 else a - b
  }

  /**
   * `impl_nio_iovec!` and `impl_nio_msghdr!`: `header` is what a message carries beside its segments.
   * Every call passes the header and exactly the original bytes, as the segments without the leading
   * empty ones.
   */
  method RetrySegments<H>(header: H, segs: seq<Iovec>, isRead: bool, script: seq<Reply>)
    returns (out: Outcome, calls: seq<(H, seq<Iovec>)>)
    ensures Len(segs) == 0 ==> out == Returned(0) && calls == []
    ensures Len(segs) > 0 ==> out == Decided(script) && |calls| == CallsMade(script)
    ensures forall c <- calls :: c == (header, segs[LeadingEmpty(segs)..]) && Bytes(c.1) == Bytes(segs)
  {
    LeadingEmptyFits(segs);
    var vec := segs;
    var length, pices := Totals(segs);
    if length > 0 {
      SomethingLeft(segs);
      assert segs[0..] == segs;
      assert Working(vec, pices, segs, 0);
    }
    hide Working, Len, LeadingEmpty, Bytes, AreTotals;
    ghost var dropped := 0;
    calls := [];
    var done, r := 0, 0;
    var k := 0;
    while done < length
      invariant done == 0 && r == (if k == 0 then 0 else -1) && (length == 0 ==> k == 0)
      invariant length > 0 ==> Working(vec, pices, segs, dropped)
      invariant k == |calls| <= |script| && forall i | 0 <= i < k :: Retried(script[i])
      invariant forall c <- calls :: c == (header, segs[LeadingEmpty(segs)..])
      decreases |script| - k
    {
      RetriesAt(script, k);
      if k == |script| {
        return Unfinished, calls;
      }
      vec, pices := NextArguments(vec, pices, done, segs, dropped);
      dropped := LeadingEmpty(segs);
      calls := calls + [(header, vec)];
      var goOn;
      goOn, r, done := AfterCall(script[k], done, length, isRead);
      k := k + 1;
      if !goOn {
        break;
      }
    }
    return Returned(r), calls;
  }
}
