// The coroutine pool of open-coroutine-core/src/pool/mod.rs and the callbacks of pool/creator.rs
// as a transition system: worker coroutines, the task queue, the result table, the stop protocol.
//
// A worker has the stack of the tasks it has begun and not finished: a task that waits for another
// one's result runs further tasks on top of itself. One thread schedules, so what a worker does
// between two calls of user code is one step.
module PoolModel {
  import opened Constants

  type Name = string

  /** What a task gives back: a value, or the message of its panic. */
  datatype Outcome = Value(value: Option<nat>) | Failure(message: string)

  const USIZE_MAX: nat := 0xFFFF_FFFF_FFFF_FFFF

  /**
   * A worker coroutine: its tasks, innermost first; whether its state is `SystemCall`; whether it is
   * parked in the syscall map without a deadline; whether it sits in a blocker that suspends it.
   */
  datatype Worker = Worker(stack: seq<Name>, inCall: bool, parked: bool, blocked: bool)

  const NEWCOMER := Worker([], false, false, false)

  /** The worker can be scheduled and is at the head of its loop or inside a task. */
  predicate Free(w: Worker) {
    !w.parked && !w.blocked
  }

  predicate Busy(w: Worker) {
    Free(w) && w.stack != []
  }

  datatype Pool = Pool(
    state: PoolState, minSize: nat, maxSize: nat,
    tasks: seq<Name>, workers: seq<Worker>, running: nat, popFails: nat,
    results: map<Name, Outcome>,
    stopCalled: bool,         // `stop` has begun and has not failed before changing the state
    stopOver: bool,           // `stop` has failed after changing the state
    errors: nat,              // schedules that ended in an error
    leaked: nat,              // workers that crashed inside a system call
    broken: bool,             // an assertion of the pool has fired
    submitted: seq<Name>, started: seq<Name>, lost: seq<Name>,
    outcomes: map<Name, Outcome>, taken: seq<(Name, Outcome)>)

  datatype Event =
    | Submit(name: Name, inside: Option<nat>)  // from outside, or by a task of the given worker
    | Round                                    // a scheduling round begins: `grow`
    | Begin(i: nat)                            // `try_run` of worker i takes a task, if there is one
    | Finish(i: nat, outcome: Outcome)         // the innermost task of worker i is done
    | Cross(i: nat, into: bool)                // a task of worker i enters a system call or leaves it
    | Hand(i: nat, timed: bool)                // a task of worker i yields, in a system call with a deadline or not
    | Idle(i: nat, aged: bool, delays: bool)   // `try_run` of worker i found nothing; the blocker delays or sleeps
    | Unblock(i: nat)                          // the delay of worker i is over
    | Wake(i: nat)                             // worker i is woken by name or by a stale deadline entry
    | Crash(i: nat)                            // worker i panics outside any task
    | Take(name: Name)                         // `try_get_result`
    | Start                                    // `start`
    | StopBegin                                // `stop` is called and begins its first round
    | StopTurn                                 // `stop` changes the state
    | StopCheck                                // the test in the loop of `stop`

  function Fresh(minSize: nat, maxSize: nat): Pool {
    Pool(PoolCreated, minSize, maxSize, [], [], 0, 0, map[], false, false, 0, 0, false, [], [], [], map[], [])
  }

  predicate Accepting(st: PoolState) {
    st == PoolCreated || st == PoolRunning
  }

  function Grown(p: Pool, should: bool): (r: Pool)
    ensures r == p.(workers := r.workers, running := r.running)
    ensures |r.workers| - |p.workers| == r.running - p.running >= 0
    ensures p.running <= p.maxSize ==> r.running <= p.maxSize
  {
    if !should || p.tasks == [] || p.running >= p.maxSize then p
    else p.(workers := p.workers + [NEWCOMER], running := p.running + 1)
  }

  function SaturatingDec(n: nat): nat {
    if n == 0 then 0 else n - 1
  }

  function WrappingDec(n: nat): nat {
    if n == 0 then USIZE_MAX else n - 1
  }

  function Without(ws: seq<Worker>, i: nat): seq<Worker>
    requires i < |ws|
  {
    ws[..i] + ws[i + 1..]
  }

  function Begun(p: Pool, i: nat): Pool
    requires i < |p.workers|
  {
    var w := p.workers[i];
    if p.tasks == [] then p
    else p.(tasks := p.tasks[1..], started := p.started + [p.tasks[0]],
            workers := p.workers[i := w.(stack := [p.tasks[0]] + w.stack)])
  }

  /** The result is stored; the worker's own `try_run` (not a nested one) also resets the failure count. */
  function Completed(p: Pool, i: nat, outcome: Outcome): Pool
    requires i < |p.workers| && p.workers[i].stack != []
  {
    var w := p.workers[i];
    var name, rest := w.stack[0], w.stack[1..];
    p.(workers := p.workers[i := w.(stack := rest)], results := p.results[name := outcome],
       outcomes := p.outcomes[name := outcome], broken := name in p.results,
       popFails := if rest == [] then 0 else p.popFails)
  }

  /** A yield: in a system call without a deadline the worker stays in the syscall map until it is woken. */
  function Yielded(p: Pool, i: nat, timed: bool): (r: Pool)
    requires i < |p.workers|
    ensures r == p.(workers := r.workers, running := r.running)
    ensures |r.workers| - |p.workers| == r.running - p.running >= 0
    ensures p.running <= p.maxSize ==> r.running <= p.maxSize
  {
    var w := p.workers[i];
    Grown(p.(workers := p.workers[i := w.(parked := w.inCall && !timed)]), true)
  }

  predicate Recycles(p: Pool, aged: bool) {
    (aged && p.running > p.minSize) || !Accepting(p.state)
  }

  /** The schedule returns an error, and so does a `stop` that called it. */
  function Failed(p: Pool): (r: Pool)
    ensures r == p.(errors := p.errors + 1, stopCalled := r.stopCalled, stopOver := r.stopOver)
  {
    if Accepting(p.state) then p.(errors := p.errors + 1, stopCalled := false)
    else p.(errors := p.errors + 1, stopOver := true)
  }

  /** The worker's body returns: inside a system call `complete` refuses and the schedule fails. */
  function Retired(p: Pool, i: nat): (r: Pool)
    requires i < |p.workers|
    ensures r == p.(workers := r.workers, running := r.running, errors := r.errors,
                    stopCalled := r.stopCalled, stopOver := r.stopOver)
    ensures |r.workers| == |p.workers| - 1 && r.running == SaturatingDec(p.running)
    ensures r.stopCalled ==> p.stopCalled
    ensures !Accepting(p.state) ==> r.stopCalled == p.stopCalled
    ensures Accepting(p.state) ==> r.stopOver == p.stopOver
  {
    var p' := p.(workers := Without(p.workers, i), running := SaturatingDec(p.running));
    if p.workers[i].inCall then Failed(p') else p'
  }

  /** The end of a worker's loop body: retire, step aside for the next worker, or block. */
  function Idled(p: Pool, i: nat, aged: bool, delays: bool): (r: Pool)
    requires i < |p.workers|
    ensures r == p.(workers := r.workers, running := r.running, popFails := r.popFails, errors := r.errors,
                    stopCalled := r.stopCalled, stopOver := r.stopOver)
  {
    if Recycles(p, aged) then Retired(p, i)
    else if p.popFails + 1 < p.running then Yielded(p.(popFails := p.popFails + 1), i, false)
    else if delays then
      Yielded(p.(popFails := p.popFails + 1, workers := p.workers[i := p.workers[i].(blocked := true)]), i, false)
    else p.(popFails := 0)
  }

  /**
   * The worker's body panics; the tasks on its stack are gone. `on_error` corrects the count and grows;
   * but inside a system call `error` refuses, the schedule fails and the count stays.
   */
  function Crashed(p: Pool, i: nat): (r: Pool)
    requires i < |p.workers|
    ensures r == p.(workers := r.workers, running := r.running, lost := r.lost, leaked := r.leaked,
                    errors := r.errors, stopCalled := r.stopCalled, stopOver := r.stopOver)
  {
    var p' := p.(workers := Without(p.workers, i), lost := p.lost + p.workers[i].stack);
    if p.workers[i].inCall then Failed(p'.(leaked := p.leaked + 1))
    else Grown(p'.(running := WrappingDec(p.running)), true)
  }

  function Taken(p: Pool, name: Name): Pool {
    if name !in p.results then p
    else p.(results := p.results - {name}, taken := p.taken + [(name, p.results[name])])
  }

  /** `stop` on a pool without its own thread begins with a round; while stopping it is refused. */
  function StopBegun(p: Pool): Pool {
    match p.state
    case PoolCreated => Grown(p, true).(stopCalled := true)
    case Stopping(_) => p.(broken := true)
    case _ => p
  }

  function StopTurned(p: Pool): Pool {
    if p.stopCalled && p.state == PoolCreated then p.(state := Stopping(false)) else p
  }

  function StopChecked(p: Pool): Pool {
    if p.state != Stopping(false) || p.stopOver || p.tasks != [] || p.running != 0 then p
    else p.(state := Stopped)
  }

  /** The events of one worker. */
  predicate OfWorker(e: Event) {
    e.Begin? || e.Finish? || e.Cross? || e.Hand? || e.Idle? || e.Unblock? || e.Wake? || e.Crash?
  }

  /** A step of worker `e.i`; what the worker cannot do in its state does not occur. */
  function WorkerStep(p: Pool, e: Event): Pool
    requires OfWorker(e) && e.i < |p.workers|
  {
    var w := p.workers[e.i];
    match e
    case Begin(i) => if Free(w) then Begun(p, i) else p
    case Finish(i, outcome) => if Busy(w) then Completed(p, i, outcome) else p
    case Cross(i, into) => if Busy(w) then p.(workers := p.workers[i := w.(inCall := into)]) else p
    case Hand(i, timed) => if Busy(w) then Yielded(p, i, timed) else p
    case Idle(i, aged, delays) => if Free(w) && w.stack == [] && p.tasks == [] then Idled(p, i, aged, delays) else p
    case Unblock(i) =>
      if w.blocked && !w.parked then p.(workers := p.workers[i := w.(blocked := false)], popFails := 0) else p
    case Wake(i) => p.(workers := p.workers[i := w.(parked := false)])
    case Crash(i) => if Free(w) then Crashed(p, i) else p
  }

  /** One step; an event that names no such worker does not occur. */
  function Step(p: Pool, e: Event): Pool {
    if p.broken then p else
    match e
    case Submit(name, _) => p.(tasks := p.tasks + [name], submitted := p.submitted + [name])
    case Round => Grown(p, Accepting(p.state))
    case Take(name) => Taken(p, name)
    case Start => if p.state == PoolCreated then p.(state := PoolRunning) else p.(broken := true)
    case StopBegin => StopBegun(p)
    case StopTurn => StopTurned(p)
    case StopCheck => StopChecked(p)
    case _ => if e.i < |p.workers| then WorkerStep(p, e) else p
  }

  function Run(p: Pool, es: seq<Event>): Pool
    decreases es
  {
    if es == [] then p else Run(Step(p, es[0]), es[1..])
  }

  /** Task names are new, tasks submit while they run, `start` or `stop` is called on a pool just created. */
  predicate Promised(p: Pool, e: Event) {
    match e
    case Submit(name, inside) =>
      name !in p.submitted && (inside.Some? ==> inside.value < |p.workers| && Busy(p.workers[inside.value]))
    case Start => p.state == PoolCreated && !p.stopCalled
    case StopBegin => p.state == PoolCreated && !p.stopCalled
    case _ => true
  }

  /** What callers promise: all that, and submissions after `stop` has begun come from tasks. */
  predicate Allowed(p: Pool, e: Event) {
    Promised(p, e) && (e.Submit? && e.inside.None? ==> !p.stopCalled)
  }

  predicate AllAllowed(p: Pool, es: seq<Event>)
    decreases es
  {
    es == [] || (Allowed(p, es[0]) && AllAllowed(Step(p, es[0]), es[1..]))
  }
}
