// The state machine of open-coroutine-core/src/coroutine/korosensei.rs (the `StateMachine` impl).
module StateMachine {
  import opened Constants

  // Each transition yields the new state, or `None` where the source returns an error.

  function ToReady(st: CoroutineState, now: nat): Option<CoroutineState> {
    match st
    case Created => Some(Ready)
    case Suspended(t) => if t <= now then Some(Ready) else None
    case _ => None
  }

  function ToRunning(st: CoroutineState, now: nat): Option<CoroutineState> {
    match st
    case Created => Some(Running)
    case Ready => Some(Running)
    case Suspended(t) => if t <= now then Some(Running) else None
    case SystemCall(_, _) => Some(st)
    case _ => None
  }

  function ToSuspended(st: CoroutineState, timestamp: nat): Option<CoroutineState> {
    if st == Running then Some(Suspended(timestamp)) else None
  }

  function ToSyscall(st: CoroutineState, call: Syscall, sub: SyscallState): Option<CoroutineState> {
    match st
    case Running => Some(SystemCall(call, sub))
    case SystemCall(original, _) => if original == call then Some(SystemCall(call, sub)) else None
    case _ => None
  }

  function FromSyscall(st: CoroutineState): Option<CoroutineState> {
    match st
    case SystemCall(_, Finished) => Some(Running)
    case SystemCall(_, Timeout) => Some(Running)
    case _ => None
  }

  function ToComplete(st: CoroutineState): Option<CoroutineState> {
    if st == Running then Some(Complete) else None
  }

  function ToError(st: CoroutineState, message: string): Option<CoroutineState> {
    if st == Running then Some(Error(message)) else None
  }

  /** How the body of a coroutine hands control back: with the stamp that the yield carries, or for good. */
  datatype End = Yields(stamp: nat) | Returns | Panics(message: string)

  /** The states in which `resume_with` hands a coroutine back. */
  predicate HasEnded(st: CoroutineState) {
    st.Suspended? || st.SystemCall? || st.Complete? || st.Error?
  }

  /** The second half of `resume_with`: the state the resumer is told, given the cell the body left. */
  function AfterBody(cell: CoroutineState, end: End): (r: Option<CoroutineState>)
    ensures r.Some? ==> HasEnded(r.value)
  {
    match end
    case Yields(stamp) =>
      (match cell
       case Running => ToSuspended(cell, stamp)
       case SystemCall(_, _) => Some(cell)
       case _ => None)
    case Returns => ToComplete(cell)
    case Panics(m) => ToError(cell, m)
  }

  /** The cell while the body of a coroutine executes. */
  predicate InBody(st: CoroutineState) {
    st.Running? || st.SystemCall?
  }

  /** The transitions that the syscall hooks perform on the running coroutine. */
  datatype HookAct = Enter(call: Syscall, sub: SyscallState) | Leave

  function HookStep(st: CoroutineState, a: HookAct): CoroutineState {
    var next := match a case Enter(call, sub) => ToSyscall(st, call, sub) case Leave => FromSyscall(st);
    if next.Some? then next.value else st
  }

  function HookRun(st: CoroutineState, acts: seq<HookAct>): CoroutineState
    decreases acts
  {
    if acts == [] then st else HookRun(HookStep(st, acts[0]), acts[1..])
  }

  /**
   * Whatever the hooks do, a body that was let in stays in `Running` or `SystemCall`; so a yield is
   * always accepted, and the result of `resume_with` is an error exactly when the body finishes
   * while still inside a system call.
   */
  lemma {:induction false} HookedBodyEnds(st: CoroutineState, acts: seq<HookAct>, end: End)
    requires InBody(st)
    ensures InBody(HookRun(st, acts))
    ensures AfterBody(HookRun(st, acts), end).None? <==> !end.Yields? && HookRun(st, acts) != Running
    decreases acts
  {
    if acts != [] {
      HookedBodyEnds(HookStep(st, acts[0]), acts[1..], end);
    }
  }

  /** Without leaving it, the hooks cannot turn one system call into another. */
  lemma {:induction false} SyscallIsSticky(st: CoroutineState, acts: seq<HookAct>)
    requires st.SystemCall?
    requires forall a | a in acts :: a.Enter?
    ensures HookRun(st, acts).SystemCall? && HookRun(st, acts).call == st.call
    decreases acts
  {
    if acts != [] {
      SyscallIsSticky(HookStep(st, acts[0]), acts[1..]);
    }
  }

  class Coroutine {
    const name: string
    var state: CoroutineState

    constructor (name: string)
      ensures this.name == name && state == Created
    {
      this.name, this.state := name, Created;
    }

    method ChangeTo(next: Option<CoroutineState>) returns (ok: bool)
      modifies this
      ensures ok == next.Some? && state == if ok then next.value else old(state)
    {
      ok := next.Some?;
      if ok {
        state := next.value;
      }
    }

    /** created -> ready, suspend -> ready once the timestamp has passed; anything else is refused. */
    method MakeReady(now: nat) returns (ok: bool)
      modifies this
      ensures ok <==> old(state).Created? || (old(state).Suspended? && old(state).timestamp <= now)
      ensures state == if ok then Ready else old(state)
    {
      ok := ChangeTo(ToReady(state, now));
    }

    /** A coroutine inside a system call is resumed without a state change. */
    method MakeRunning(now: nat) returns (ok: bool)
      modifies this
      ensures ok <==> old(state).Created? || old(state).Ready? || old(state).SystemCall?
                      || (old(state).Suspended? && old(state).timestamp <= now)
      ensures state == if ok && !old(state).SystemCall? then Running else old(state)
    {
      ok := ChangeTo(ToRunning(state, now));
    }

    /** Only the running coroutine enters a system call, and only the same call may change its sub-state. */
    method EnterSyscall(call: Syscall, sub: SyscallState) returns (ok: bool)
      modifies this
      ensures ok <==> old(state).Running? || (old(state).SystemCall? && old(state).call == call)
      ensures state == if ok then SystemCall(call, sub) else old(state)
    {
      ok := ChangeTo(ToSyscall(state, call, sub));
    }

    method ResumeFromSyscall() returns (ok: bool)
      modifies this
      ensures ok <==> old(state).SystemCall? && (old(state).sub.Finished? || old(state).sub.Timeout?)
      ensures state == if ok then Running else old(state)
    {
      ok := ChangeTo(FromSyscall(state));
    }

    /** Only a running coroutine is suspended, completed or failed. */
    method EndBody(end: End) returns (ok: bool)
      requires InBody(state)
      modifies this
      ensures ok <==> end.Yields? || old(state).Running?
      ensures !ok || old(state).SystemCall? ==> state == old(state)
      ensures old(state).Running? ==>
                state == match end case Yields(t) => Suspended(t) case Returns => Complete case Panics(m) => Error(m)
    {
      ok := ChangeTo(AfterBody(state, end));
    }
  }
}
