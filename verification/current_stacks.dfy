// The thread-local stacks behind `resume_with` (coroutine/korosensei.rs) and the suspender
// (coroutine/suspender.rs): the current coroutines, the current suspenders and the requested timestamps.
module CurrentStacks {
  import opened Constants
  import opened StateMachine

  type Id = nat

  /** How a body hands control back: a plain suspend, a delay until a timestamp, a return or a panic. */
  datatype Ending = Suspends | Delays(t: nat) | Finishes | Fails(message: string)

  /** What a body does between one resume and the next hand-over, nested resumes included. */
  datatype Body =
    | Ends(end: Ending)
    | Hook(act: HookAct, rest: Body)
    | Nest(id: Id, now: nat, inner: Body, rest: Body)

  /** What user code finds on the two stacks each time it gets control. */
  datatype Sight = Sight(id: Id, coroutines: seq<Id>, suspenders: seq<Id>)

  /** One hand-over: the cell the body left, and what `resume_with` reports (`None` for an error). */
  datatype HandOver = HandOver(id: Id, end: Ending, cell: CoroutineState, told: Option<CoroutineState>)

  datatype Thread = Thread(
    coroutines: seq<Id>, suspenders: seq<Id>, stamps: seq<nat>, cells: map<Id, CoroutineState>,
    sights: seq<Sight>, log: seq<HandOver>)

  datatype Back = Back(thread: Thread, told: Option<CoroutineState>)

  function Cell(th: Thread, id: Id): CoroutineState {
    if id in th.cells then th.cells[id] else Created
  }

  function Popped<T>(s: seq<T>): seq<T> {
    if s == [] then s else s[1..]
  }

  function Look(th: Thread, id: Id): Thread {
    th.(sights := th.sights + [Sight(id, th.coroutines, th.suspenders)])
  }

  /** `running` succeeded: the coroutine and, on its own stack, its suspender become current. */
  function Entered(th: Thread, id: Id, st: CoroutineState): Thread {
    Look(th.(cells := th.cells[id := st], coroutines := [id] + th.coroutines, suspenders := [id] + th.suspenders), id)
  }

  /** The stack of requested timestamps as a hand-over finds it, after the push of `until_with`. */
  function Requested(stamps: seq<nat>, end: Ending): seq<nat> {
    if end.Delays? then [end.t] + stamps else stamps
  }

  /** `timestamp()`: the newest request, or 0. */
  function Newest(stamps: seq<nat>): nat {
    if stamps == [] then 0 else stamps[0]
  }

  function AsEnd(stamps: seq<nat>, end: Ending): End {
    match end
    case Suspends => Yields(Newest(stamps))
    case Delays(_) => Yields(Newest(stamps))
    case Finishes => Returns
    case Fails(m) => Panics(m)
  }

  predicate YieldsAs(end: Ending) {
    end.Suspends? || end.Delays?
  }

  function StampsAfter(stamps: seq<nat>, end: Ending, cell: CoroutineState): seq<nat> {
    var requested := Requested(stamps, end);
    if YieldsAs(end) && cell == Running then Popped(requested) else requested
  }

  function Told(stamps: seq<nat>, end: Ending, cell: CoroutineState): Option<CoroutineState> {
    AfterBody(cell, AsEnd(Requested(stamps, end), end))
  }

  /** The second half of `resume_with`: an error returns early and leaves the coroutine current. */
  function HandedOver(th: Thread, id: Id, end: Ending): Back {
    var cell := Cell(th, id);
    var told := Told(th.stamps, end, cell);
    var th1 := th.(suspenders := Popped(th.suspenders), stamps := StampsAfter(th.stamps, end, cell),
                   log := th.log + [HandOver(id, end, cell, told)]);
    if told.None? then Back(th1, None)
    else Back(th1.(cells := th1.cells[id := told.value], coroutines := Popped(th1.coroutines)), told)
  }

  /** A hook acts on the current coroutine, which is the top of the coroutine stack. */
  function Hooked(th: Thread, act: HookAct): Thread {
    if th.coroutines == [] then th
    else var top := th.coroutines[0]; th.(cells := th.cells[top := HookStep(Cell(th, top), act)])
  }

  /** `resume_with`. A coroutine that is executing is borrowed by its resumer and cannot be resumed again. */
  function Resume(th: Thread, id: Id, now: nat, body: Body): Back
    decreases body, 1
  {
    var cell := Cell(th, id);
    if id in th.suspenders then Back(th, None)
    else if cell == Complete then Back(th, Some(Complete))
    else
      match ToRunning(cell, now)
      case None => Back(th, None)
      case Some(st) => Execute(Entered(th, id, st), id, body)
  }

  function Execute(th: Thread, id: Id, body: Body): Back
    decreases body, 0
  {
    match body
    case Ends(end) => HandedOver(th, id, end)
    case Hook(act, rest) => Execute(Hooked(th, act), id, rest)
    case Nest(other, now, inner, rest) => Execute(Look(Resume(th, other, now, inner).thread, id), id, rest)
  }

  // ---------- the two current stacks ----------

  /** The coroutines that execute have cells in `Running` or `SystemCall`. */
  ghost predicate ActiveInBody(th: Thread) {
    forall id <- th.suspenders :: InBody(Cell(th, id))
  }

  /** How many hand-overs of the log ended in an error. */
  function Refused(log: seq<HandOver>): nat {
    if log == [] then 0
    else Refused(log[..|log| - 1]) + if log[|log| - 1].told.None? then 1 else 0
  }

  /** `t` is `s` with coroutines put on top that are not active. */
  predicate Atop(s: seq<Id>, t: seq<Id>, active: seq<Id>)
    decreases |t|
  {
    t == s || (t != [] && t[0] !in active && Atop(s, t[1..], active))
  }

  /** The same without recursion. */
  lemma {:induction false} AtopMeans(s: seq<Id>, t: seq<Id>, active: seq<Id>)
    requires Atop(s, t, active)
    ensures |s| <= |t| && t[|t| - |s|..] == s
    ensures forall i | 0 <= i < |t| - |s| :: t[i] !in active
    decreases |t|
  {
    if t != s {
      AtopMeans(s, t[1..], active);
    }
  }

  lemma {:induction false} AtopTransitive(s: seq<Id>, t: seq<Id>, u: seq<Id>, active: seq<Id>)
    requires Atop(s, t, active) && Atop(t, u, active)
    ensures Atop(s, u, active)
    decreases |u|
  {
    if u != t {
      AtopTransitive(s, t, u[1..], active);
    }
  }

  lemma {:induction false} AtopFewer(s: seq<Id>, t: seq<Id>, active: seq<Id>, fewer: seq<Id>)
    requires Atop(s, t, active) && forall i <- fewer :: i in active
    ensures Atop(s, t, fewer)
    decreases |t|
  {
    if t != s {
      AtopFewer(s, t[1..], active, fewer);
    }
  }

  /** One hand-over refuses exactly the end of a body inside a system call. */
  predicate RefusedInSyscall(e: HandOver) {
    InBody(e.cell) && (e.told.None? <==> !YieldsAs(e.end) && e.cell.SystemCall?)
  }

  /** Whose turn user code has when it looks, as the suspender stack tells it. */
  predicate OwnOnTop(v: Sight) {
    v.suspenders != [] && v.suspenders[0] == v.id
  }

  /** What a resume does to the stacks, whatever the bodies do. */
  ghost predicate Kept(th: Thread, th': Thread) {
    && ActiveInBody(th')
    && th'.suspenders == th.suspenders
    && th.log <= th'.log && th.sights <= th'.sights
    && |th'.coroutines| - |th.coroutines| == Refused(th'.log) - Refused(th.log)
    && Atop(th.coroutines, th'.coroutines, th.suspenders)
    && (forall i | |th.log| <= i < |th'.log| :: RefusedInSyscall(th'.log[i]))
    && (forall i | |th.sights| <= i < |th'.sights| :: OwnOnTop(th'.sights[i]))
    && (forall id <- th.suspenders :: Cell(th', id) == Cell(th, id))
  }

  lemma RefusedSnoc(log: seq<HandOver>, e: HandOver)
    ensures Refused(log + [e]) == Refused(log) + if e.told.None? then 1 else 0
  {
    assert (log + [e])[..|log|] == log;
  }

  /** What executing a body to its hand-over does: the stacks lose the coroutine that executed. */
  ghost predicate Executed(th: Thread, th': Thread) {
    StacksPopped(th, th') && HistoryGrown(th, th')
  }

  ghost predicate StacksPopped(th: Thread, th': Thread) {
    && th.suspenders != [] && th.coroutines != []
    && ActiveInBody(th')
    && th'.suspenders == th.suspenders[1..]
    && Atop(th.coroutines[1..], th'.coroutines, th.suspenders[1..])
    && (forall id <- th'.suspenders :: Cell(th', id) == Cell(th, id))
  }

  ghost predicate HistoryGrown(th: Thread, th': Thread) {
    && th.log <= th'.log && th.sights <= th'.sights
    && |th'.coroutines| - |th.coroutines| + 1 == Refused(th'.log) - Refused(th.log)
    && (forall i | |th.log| <= i < |th'.log| :: RefusedInSyscall(th'.log[i]))
    && (forall i | |th.sights| <= i < |th'.sights| :: OwnOnTop(th'.sights[i]))
  }

  /** `id` executes: its suspender is on top, once; on the coroutine stack, only coroutines left over hide it. */
  ghost predicate Executes(th: Thread, id: Id) {
    && ActiveInBody(th)
    && th.suspenders != [] && th.suspenders[0] == id && id !in th.suspenders[1..]
    && th.coroutines != [] && (th.coroutines[0] == id || th.coroutines[0] !in th.suspenders)
  }

  lemma AtopOne(c: seq<Id>, active: seq<Id>)
    requires c != [] && c[0] !in active
    ensures Atop(c[1..], c, active) && Atop(c[1..], c[1..], active)
  {
  }

  /** A hand-over pops the suspender, and the coroutine too unless it is refused; nobody else is touched. */
  lemma HandOverPops(th: Thread, id: Id, end: Ending)
    requires th.suspenders != [] && th.coroutines != [] && InBody(Cell(th, id))
    ensures var th' := HandedOver(th, id, end).thread;
            && th'.suspenders == th.suspenders[1..]
            && th'.coroutines == (if !YieldsAs(end) && Cell(th, id) != Running then th.coroutines else th.coroutines[1..])
            && forall i: Id | i != id :: Cell(th', i) == Cell(th, i)
  {
    hide StampsAfter;
  }

  lemma HandOverStacks(th: Thread, th': Thread, id: Id)
    requires Executes(th, id) && th'.suspenders == th.suspenders[1..]
    requires th'.coroutines == th.coroutines || th'.coroutines == th.coroutines[1..]
    requires forall i: Id | i != id :: Cell(th', i) == Cell(th, i)
    ensures StacksPopped(th, th')
  {
    assert forall i <- th.suspenders[1..] :: i in th.suspenders && i != id;
    AtopOne(th.coroutines, th.suspenders[1..]);
    hide Atop;
  }

  lemma HandOverHistory(th: Thread, id: Id, end: Ending)
    requires InBody(Cell(th, id)) && th.coroutines != []
    ensures HistoryGrown(th, HandedOver(th, id, end).thread)
  {
    var cell := Cell(th, id);
    var e := HandOver(id, end, cell, Told(th.stamps, end, cell));
    assert RefusedInSyscall(e);
    RefusedSnoc(th.log, e);
    hide Told, StampsAfter, RefusedInSyscall, InBody, Refused;
  }

  /**
   * For every nesting: a resume leaves the suspender stack as it found it; the coroutine stack keeps
   * what was there and grows by exactly the number of bodies that finished inside a system call.
   */
  lemma {:induction false} ResumeRestores(th: Thread, id: Id, now: nat, body: Body)
    requires ActiveInBody(th)
    ensures Kept(th, Resume(th, id, now, body).thread)
    decreases body, 1
  {
    var cell := Cell(th, id);
    if id !in th.suspenders && cell != Complete && ToRunning(cell, now).Some? {
      var th1 := Entered(th, id, ToRunning(cell, now).value);
      EntersToExecute(th, id, ToRunning(cell, now).value);
      ExecuteRestores(th1, id, body);
      EnterKeeps(th, id, ToRunning(cell, now).value, Execute(th1, id, body).thread);
      hide Kept, Executed, Executes, Execute, ActiveInBody;
    } else {
      hide Kept, ActiveInBody;
      NothingKeeps(th);
    }
  }

  lemma NothingKeeps(th: Thread)
    requires ActiveInBody(th)
    ensures Kept(th, th)
  {
  }

  lemma EntersToExecute(th: Thread, id: Id, st: CoroutineState)
    requires ActiveInBody(th) && id !in th.suspenders && InBody(st)
    ensures Executes(Entered(th, id, st), id)
  {
    var th1 := Entered(th, id, st);
    forall i <- th1.suspenders ensures InBody(Cell(th1, i)) {
      assert i == id || i in th.suspenders;
    }
  }

  lemma EnterKeeps(th: Thread, id: Id, st: CoroutineState, th': Thread)
    requires id !in th.suspenders && Executed(Entered(th, id, st), th')
    ensures Kept(th, th')
  {
    var th1 := Entered(th, id, st);
    assert th1.suspenders[1..] == th.suspenders && th1.coroutines[1..] == th.coroutines;
    assert OwnOnTop(th1.sights[|th.sights|]);
    assert th'.sights[|th.sights|] == th1.sights[|th.sights|];
  }

  lemma {:induction false} ExecuteRestores(th: Thread, id: Id, body: Body)
    requires Executes(th, id)
    ensures Executed(th, Execute(th, id, body).thread)
    decreases body, 0
  {
    match body
    case Ends(end) =>
      assert InBody(Cell(th, id)) && th.coroutines != [] && th.suspenders != [];
      hide StacksPopped, HistoryGrown, Executes, HandedOver;
      HandOverPops(th, id, end);
      HandOverStacks(th, HandedOver(th, id, end).thread, id);
      HandOverHistory(th, id, end);
    case Hook(act, rest) =>
      var th1 := Hooked(th, act);
      assert Execute(th, id, body) == Execute(th1, id, rest);
      hide Executed, Executes, Execute;
      HookExecutes(th, id, act);
      ExecuteRestores(th1, id, rest);
      HookKeeps(th, id, act, Execute(th1, id, rest).thread);
    case Nest(other, now, inner, rest) =>
      assert ActiveInBody(th) && th.suspenders != [] && th.coroutines != [] && th.suspenders[0] == id;
      var th1 := Resume(th, other, now, inner).thread;
      var th2 := Look(th1, id);
      assert Execute(th, id, body) == Execute(th2, id, rest);
      hide Executed, Executes, Kept, ActiveInBody, Execute, Resume, Look;
      ResumeRestores(th, other, now, inner);
      StillExecutes(th, th1, id);
      ExecuteRestores(th2, id, rest);
      NestKeeps(th, th1, th2, Execute(th2, id, rest).thread);
  }

  lemma StillExecutes(th: Thread, th1: Thread, id: Id)
    requires Executes(th, id) && Kept(th, th1)
    ensures Executes(Look(th1, id), id)
  {
  }

  lemma HookExecutes(th: Thread, id: Id, act: HookAct)
    requires Executes(th, id)
    ensures Executes(Hooked(th, act), id)
  {
    assert InBody(Cell(th, id));
    var th1 := Hooked(th, act);
    forall i <- th.suspenders ensures InBody(Cell(th1, i)) {
      assert InBody(Cell(th, i));
    }
  }

  lemma HookKeeps(th: Thread, id: Id, act: HookAct, th': Thread)
    requires Executes(th, id) && Executed(Hooked(th, act), th')
    ensures Executed(th, th')
  {
    assert forall i <- th.suspenders[1..] :: i in th.suspenders && i != id;
    assert forall i <- th.suspenders[1..] :: Cell(Hooked(th, act), i) == Cell(th, i);
    hide Hooked, HookStep, RefusedInSyscall, OwnOnTop, ActiveInBody, Refused;
    HookedFields(th, act);
  }

  lemma HookedFields(th: Thread, act: HookAct)
    ensures Hooked(th, act) == th.(cells := Hooked(th, act).cells)
  {
  }

  lemma NestKeeps(th: Thread, th1: Thread, th2: Thread, th': Thread)
    requires th.suspenders != [] && Executes(th, th.suspenders[0])
    requires Kept(th, th1) && Executed(th2, th') && th2 == Look(th1, th.suspenders[0])
    ensures Executed(th, th')
  {
    assert th2.sights <= th'.sights;
    assert th'.sights[|th1.sights|] == th2.sights[|th1.sights|];
    assert OwnOnTop(th2.sights[|th1.sights|]);
    assert forall i <- th.suspenders[1..] :: i in th.suspenders;
    AtopJoins(th.coroutines, th1.coroutines, th'.coroutines, th.suspenders);
    hide RefusedInSyscall, OwnOnTop, InBody, Atop;
  }

  /** What a nested resume and the rest of the body leave above. */
  lemma AtopJoins(a: seq<Id>, b: seq<Id>, c: seq<Id>, active: seq<Id>)
    requires a != [] && b != [] && active != [] && Atop(a, b, active) && Atop(b[1..], c, active[1..])
    requires a[0] !in active[1..] && forall i <- active[1..] :: i in active
    ensures Atop(a[1..], c, active[1..])
  {
    if b != a {
      AtopFewer(a, b[1..], active, active[1..]);
      AtopOne(a, active[1..]);
      AtopTransitive(a[1..], a, b[1..], active[1..]);
    }
    AtopTransitive(a[1..], b[1..], c, active[1..]);
  }

  lemma {:induction false} RefusedGrows(a: seq<HandOver>, b: seq<HandOver>)
    requires a <= b
    ensures Refused(a) <= Refused(b)
    ensures Refused(a) == Refused(b) <==> Clean(b, |a|)
    decreases |b|
  {
    if |a| < |b| {
      var c := b[..|b| - 1];
      RefusedGrows(a, c);
      assert b == c + [b[|b| - 1]];
    } else {
      assert a == b;
    }
  }

  /** The coroutine stack comes back as it was if and only if no body finished inside a system call. */
  lemma RestoredIff(th: Thread, id: Id, now: nat, body: Body)
    requires ActiveInBody(th)
    ensures var th' := Resume(th, id, now, body).thread;
            th'.coroutines == th.coroutines <==>
            forall i | |th.log| <= i < |th'.log| :: YieldsAs(th'.log[i].end) || th'.log[i].cell == Running
  {
    ResumeRestores(th, id, now, body);
    var th' := Resume(th, id, now, body).thread;
    hide Resume;
    RefusedGrows(th.log, th'.log);
    AtopMeans(th.coroutines, th'.coroutines, th.suspenders);
    if Clean(th'.log, |th.log|) {
      assert th'.coroutines[0..] == th'.coroutines;
    } else {
      var i :| |th.log| <= i < |th'.log| && th'.log[i].told.None?;
      assert RefusedInSyscall(th'.log[i]);
    }
    assert forall i | |th.log| <= i < |th'.log| :: RefusedInSyscall(th'.log[i]);
  }

  /** One input: a body that enters a system call and returns. Its coroutine stays current. */
  lemma StaysCurrent(id: Id, call: Syscall, now: nat)
    ensures var th := Thread([], [], [], map[], [], []);
            var r := Resume(th, id, now, Hook(Enter(call, Computing), Ends(Finishes)));
            r.told == None && r.thread.coroutines == [id] && r.thread.suspenders == []
  {
    var th := Thread([], [], [], map[], [], []);
    var th1 := Entered(th, id, Running);
    var th2 := th1.(cells := th1.cells[id := SystemCall(call, Computing)]);
    assert Cell(th1, id) == Running;
    assert Cell(th2, id) == SystemCall(call, Computing);
    assert Execute(th1, id, Hook(Enter(call, Computing), Ends(Finishes))) == HandedOver(th2, id, Finishes);
  }

  // ---------- user code finds itself on top of two equal stacks ----------

  predicate Aligned(v: Sight) {
    v.coroutines == v.suspenders && v.suspenders != [] && v.suspenders[0] == v.id
  }

  ghost predicate Clean(log: seq<HandOver>, from: nat) {
    forall i | from <= i < |log| :: log[i].told.Some?
  }

  /** Without refused hand-overs, both stacks are restored and agree whenever user code runs. */
  ghost predicate Disciplined(th: Thread, th': Thread) {
    && th'.coroutines == th'.suspenders
    && (forall i | |th.sights| <= i < |th'.sights| :: Aligned(th'.sights[i]))
  }

  lemma {:induction false} ResumeDiscipline(th: Thread, id: Id, now: nat, body: Body)
    requires ActiveInBody(th) && th.coroutines == th.suspenders
    requires Clean(Resume(th, id, now, body).thread.log, |th.log|)
    ensures var th' := Resume(th, id, now, body).thread;
            && th'.coroutines == th.coroutines && th'.suspenders == th.suspenders
            && Disciplined(th, th')
    decreases body, 1
  {
    ResumeRestores(th, id, now, body);
    var cell := Cell(th, id);
    if id !in th.suspenders && cell != Complete && ToRunning(cell, now).Some? {
      var st := ToRunning(cell, now).value;
      var th1 := Entered(th, id, st);
      EntersToExecute(th, id, st);
      var th' := Execute(th1, id, body).thread;
      assert Resume(th, id, now, body).thread == th';
      assert th'.suspenders == th.suspenders && th.sights <= th'.sights;
      hide Resume, Execute, Executes, ActiveInBody, Kept;
      ExecuteDiscipline(th1, id, body);
      assert Aligned(th1.sights[|th.sights|]);
    }
  }

  lemma {:induction false} ExecuteDiscipline(th: Thread, id: Id, body: Body)
    requires Executes(th, id) && th.coroutines == th.suspenders
    requires Clean(Execute(th, id, body).thread.log, |th.log|)
    ensures th.sights <= Execute(th, id, body).thread.sights
    ensures Disciplined(th, Execute(th, id, body).thread)
    decreases body, 0
  {
    ExecuteUnfolds(th, id, body);
    ExecutesParts(th, id);
    hide Disciplined, Clean, Execute, HandedOver, Executes, HookStep, Executed, Kept, Resume, ActiveInBody, Cell;
    match body
    case Ends(end) =>
      HandOverDiscipline(th, id, end);
    case Hook(act, rest) =>
      var th1 := Hooked(th, act);
      HookExecutes(th, id, act);
      ExecuteDiscipline(th1, id, rest);
      SameSights(th, th1, Execute(th1, id, rest).thread);
    case Nest(other, now, inner, rest) =>
      var th1 := Resume(th, other, now, inner).thread;
      var th2 := Look(th1, id);
      var th' := Execute(th2, id, rest).thread;
      ResumeRestores(th, other, now, inner);
      StillExecutes(th, th1, id);
      ExecuteRestores(th2, id, rest);
      HistoryGrows(th, th1, id, th');
      CleanSplits(th.log, th1.log, th'.log);
      ResumeDiscipline(th, other, now, inner);
      ExecuteDiscipline(th2, id, rest);
      SightsJoin(th, th1, id, th');
  }

  lemma ExecuteUnfolds(th: Thread, id: Id, body: Body)
    ensures Execute(th, id, body) ==
            match body
            case Ends(end) => HandedOver(th, id, end)
            case Hook(act, rest) => Execute(Hooked(th, act), id, rest)
            case Nest(other, now, inner, rest) => Execute(Look(Resume(th, other, now, inner).thread, id), id, rest)
  {
    hide HandedOver, Resume, HookStep;
  }

  lemma ExecutesParts(th: Thread, id: Id)
    requires Executes(th, id)
    ensures ActiveInBody(th) && th.suspenders != [] && th.suspenders[0] == id
  {
  }

  lemma SameSights(th: Thread, th1: Thread, th': Thread)
    requires th1.sights == th.sights && Disciplined(th1, th')
    ensures Disciplined(th, th')
  {
  }

  lemma HistoryGrows(th: Thread, th1: Thread, id: Id, th': Thread)
    requires Kept(th, th1) && Executed(Look(th1, id), th')
    ensures th.log <= th1.log <= th'.log && th.sights <= th1.sights && Look(th1, id).sights <= th'.sights
  {
  }

  lemma CleanSplits(a: seq<HandOver>, b: seq<HandOver>, c: seq<HandOver>)
    requires a <= b <= c && Clean(c, |a|)
    ensures Clean(b, |a|) && Clean(c, |b|)
  {
    forall i | |a| <= i < |b| ensures b[i].told.Some? {
      assert b[i] == c[i];
    }
  }

  lemma HandOverDiscipline(th: Thread, id: Id, end: Ending)
    requires Executes(th, id) && th.coroutines == th.suspenders
    requires Clean(HandedOver(th, id, end).thread.log, |th.log|)
    ensures th.sights == HandedOver(th, id, end).thread.sights
    ensures Disciplined(th, HandedOver(th, id, end).thread)
  {
    assert HandedOver(th, id, end).thread.log[|th.log|].told.Some?;
    hide Told, StampsAfter, ActiveInBody;
  }

  lemma SightsJoin(th: Thread, th1: Thread, id: Id, th': Thread)
    requires th.sights <= th1.sights && Look(th1, id).sights <= th'.sights
    requires Disciplined(th, th1) && Disciplined(Look(th1, id), th')
    requires th1.suspenders != [] && th1.suspenders[0] == id
    ensures Disciplined(th, th')
  {
    var th2 := Look(th1, id);
    assert Aligned(th2.sights[|th1.sights|]);
    forall i | |th.sights| <= i < |th'.sights| ensures Aligned(th'.sights[i]) {
      if i < |th2.sights| {
        assert th'.sights[i] == th2.sights[i];
      }
    }
  }

  // ---------- timestamps ----------

  /** The stack of requested timestamps is a function of the hand-overs so far. */
  function Stamps(log: seq<HandOver>): seq<nat> {
    if log == [] then []
    else var e := log[|log| - 1]; StampsAfter(Stamps(log[..|log| - 1]), e.end, e.cell)
  }

  ghost predicate ToldByStamps(log: seq<HandOver>, i: nat)
    requires i < |log|
  {
    log[i].told == Told(Stamps(log[..i]), log[i].end, log[i].cell)
  }

  ghost predicate StampsFollow(th: Thread) {
    th.stamps == Stamps(th.log) && forall i | 0 <= i < |th.log| :: ToldByStamps(th.log, i)
  }

  lemma HandOverStamps(th: Thread, id: Id, end: Ending)
    requires StampsFollow(th)
    ensures StampsFollow(HandedOver(th, id, end).thread)
  {
    var th' := HandedOver(th, id, end).thread;
    var n := |th.log|;
    assert th'.log[..n] == th.log;
    forall i | 0 <= i < |th'.log| ensures ToldByStamps(th'.log, i) {
      if i < n {
        assert ToldByStamps(th.log, i);
        assert th'.log[..i] == th.log[..i];
      }
    }
  }

  lemma {:induction false} ResumeStamps(th: Thread, id: Id, now: nat, body: Body)
    requires StampsFollow(th)
    ensures StampsFollow(Resume(th, id, now, body).thread)
    decreases body, 1
  {
    var cell := Cell(th, id);
    if id !in th.suspenders && cell != Complete && ToRunning(cell, now).Some? {
      ExecuteStamps(Entered(th, id, ToRunning(cell, now).value), id, body);
    }
  }

  lemma {:induction false} ExecuteStamps(th: Thread, id: Id, body: Body)
    requires StampsFollow(th)
    ensures StampsFollow(Execute(th, id, body).thread)
    decreases body, 0
  {
    match body
    case Ends(end) =>
      HandOverStamps(th, id, end);
    case Hook(act, rest) =>
      ExecuteStamps(Hooked(th, act), id, rest);
    case Nest(other, now, inner, rest) =>
      ResumeStamps(th, other, now, inner);
      ExecuteStamps(Look(Resume(th, other, now, inner).thread, id), id, rest);
  }

  /** A delay requested inside a system call: `until_with` pushes, nobody pops. */
  predicate DelayInSyscall(e: HandOver) {
    e.end.Delays? && e.cell != Running
  }

  predicate PlainSuspend(e: HandOver) {
    e.end.Suspends? && e.cell == Running
  }

  /** The yield is reported with its own timestamp, 0 for a plain suspend. */
  predicate OwnStamp(e: HandOver) {
    YieldsAs(e.end) && e.cell == Running ==>
      e.told == Some(Suspended(if e.end.Delays? then e.end.t else 0))
  }

  /** The clock is past its epoch, so every delay asks for a positive timestamp. */
  predicate PositiveDelays(log: seq<HandOver>) {
    forall e <- log :: e.end.Delays? ==> e.end.t > 0
  }

  /** A delay inside a system call comes before a plain suspend. */
  ghost predicate BadPair(log: seq<HandOver>, i: nat, j: nat) {
    i < j < |log| && DelayInSyscall(log[i]) && PlainSuspend(log[j])
  }

  /** The timestamps of the delays requested inside system calls, newest first. */
  function CallDelays(log: seq<HandOver>): seq<nat> {
    if log == [] then []
    else
      var e := log[|log| - 1];
      (if DelayInSyscall(e) then [e.end.t] else []) + CallDelays(log[..|log| - 1])
  }

  lemma {:induction false} CallDelaysNone(log: seq<HandOver>)
    ensures CallDelays(log) == [] <==> forall e <- log :: !DelayInSyscall(e)
    ensures PositiveDelays(log) ==> forall t <- CallDelays(log) :: t > 0
  {
    if log != [] {
      var n := |log| - 1;
      assert log == log[..n] + [log[n]];
      CallDelaysNone(log[..n]);
      assert log[n] in log;
    }
  }

  /** While there is no bad pair, the pending timestamps are exactly those of the delays in system calls. */
  lemma {:induction false} PendingStamps(log: seq<HandOver>)
    requires forall i: nat, j: nat :: !BadPair(log, i, j)
    ensures Stamps(log) == CallDelays(log)
  {
    if log != [] {
      var n := |log| - 1;
      var init := log[..n];
      forall i: nat, j: nat ensures !BadPair(init, i, j) {
        assert BadPair(init, i, j) ==> BadPair(log, i, j);
      }
      PendingStamps(init);
      assert log == init + [log[n]];
      if PlainSuspend(log[n]) {
        forall e <- init ensures !DelayInSyscall(e) {
          var i :| 0 <= i < n && init[i] == e;
          assert !BadPair(log, i, n);
        }
        CallDelaysNone(init);
        assert Stamps(init) == [];
      }
    }
  }

  /**
   * Every yield is reported with its own timestamp if and only if no plain suspend comes after a
   * delay that was requested inside a system call.
   */
  lemma {:induction false} OwnStampsIff(log: seq<HandOver>)
    requires PositiveDelays(log)
    requires forall i | 0 <= i < |log| :: ToldByStamps(log, i)
    ensures (forall e <- log :: OwnStamp(e)) <==> (forall i: nat, j: nat :: !BadPair(log, i, j))
    decreases |log|
  {
    if log != [] {
      var n := |log| - 1;
      var init := log[..n];
      assert log == init + [log[n]];
      forall i | 0 <= i < n ensures ToldByStamps(init, i) {
        assert ToldByStamps(log, i);
        assert init[..i] == log[..i];
      }
      OwnStampsIff(init);
      assert ToldByStamps(log, n);
      LastStamp(log);
    }
  }

  /** The last hand-over of a log whose earlier part has no bad pair. */
  lemma LastStamp(log: seq<HandOver>)
    requires log != [] && PositiveDelays(log) && ToldByStamps(log, |log| - 1)
    ensures var n := |log| - 1;
            (forall i: nat, j: nat :: !BadPair(log, i, j)) <==>
            (forall i: nat, j: nat :: !BadPair(log[..n], i, j)) && OwnStamp(log[n])
  {
    var n := |log| - 1;
    var init := log[..n];
    if i: nat, j: nat :| BadPair(init, i, j) {
      assert BadPair(log, i, j);
    } else {
      PendingStamps(init);
      CallDelaysNone(init);
      assert PositiveDelays(init);
      forall i: nat, j: nat | BadPair(log, i, j) ensures j == n && !OwnStamp(log[n]) {
        if j < n {
          assert BadPair(init, i, j);
        }
        assert init[i] in init;
        assert Stamps(init)[0] in Stamps(init);
      }
      if !OwnStamp(log[n]) {
        assert Stamps(init) != [];
        var e :| e in init && DelayInSyscall(e);
        var i :| 0 <= i < n && init[i] == e;
        assert BadPair(log, i, n);
      }
    }
  }

  /** Without delays inside system calls, whatever the timestamps, nothing is pending and stamps are exact. */
  lemma NoCallDelays(log: seq<HandOver>)
    requires forall i | 0 <= i < |log| :: ToldByStamps(log, i)
    requires forall e <- log :: !DelayInSyscall(e)
    ensures Stamps(log) == [] && forall e <- log :: OwnStamp(e)
  {
    NothingPending(log);
    forall e <- log ensures OwnStamp(e) {
      var i :| 0 <= i < |log| && log[i] == e;
      assert ToldByStamps(log, i);
      assert forall d <- log[..i] :: d in log;
      NothingPending(log[..i]);
    }
  }

  lemma NothingPending(log: seq<HandOver>)
    requires forall e <- log :: !DelayInSyscall(e)
    ensures Stamps(log) == []
  {
    forall i: nat, j: nat ensures !BadPair(log, i, j) {
      assert i < |log| ==> log[i] in log;
    }
    PendingStamps(log);
    CallDelaysNone(log);
  }

  /** Delays only outside system calls: the stack is empty at every resume boundary and stamps are exact. */
  lemma TimestampDelivery(th: Thread, id: Id, now: nat, body: Body)
    requires StampsFollow(th)
    requires forall e <- Resume(th, id, now, body).thread.log :: !DelayInSyscall(e)
    ensures var th' := Resume(th, id, now, body).thread;
            th'.stamps == [] && forall e <- th'.log :: OwnStamp(e)
  {
    ResumeStamps(th, id, now, body);
    hide Resume, OwnStamp, DelayInSyscall, Stamps, ToldByStamps;
    NoCallDelays(Resume(th, id, now, body).thread.log);
  }

  /** One delay inside a system call, and the next plain suspend of any other coroutine is put off until `t`. */
  lemma StrayTimestamp(a: Id, b: Id, call: Syscall, t: nat, now: nat)
    requires a != b
    ensures var start := Thread([], [], [], map[], [], []);
            var th := Resume(start, a, now, Hook(Enter(call, Suspend(t)), Ends(Delays(t)))).thread;
            && th.stamps == [t]
            && Resume(th, b, now, Ends(Suspends)).told == Some(Suspended(t))
  {
    var start := Thread([], [], [], map[], [], []);
    var body := Hook(Enter(call, Suspend(t)), Ends(Delays(t)));
    var th1 := Entered(start, a, Running);
    var th2 := th1.(cells := th1.cells[a := SystemCall(call, Suspend(t))]);
    assert Cell(th1, a) == Running;
    assert Cell(th2, a) == SystemCall(call, Suspend(t));
    var th := HandedOver(th2, a, Delays(t)).thread;
    assert Execute(th1, a, body) == Execute(th2, a, Ends(Delays(t)));
    assert Resume(start, a, now, body).thread == th;
    assert th.suspenders == [] && Cell(th, b) == Created;
    var th3 := Entered(th, b, Running);
    assert Cell(th3, b) == Running && th3.stamps == [t];
    assert Resume(th, b, now, Ends(Suspends)) == HandedOver(th3, b, Suspends);
  }

  // ---------- the thread-local variables ----------

  class ThreadLocals {
    var coroutines: seq<Id>
    var suspenders: seq<Id>
    var stamps: seq<nat>
    var cells: map<Id, CoroutineState>
    ghost var sights: seq<Sight>
    ghost var log: seq<HandOver>

    ghost function State(): Thread
      reads this
    {
      Thread(coroutines, suspenders, stamps, cells, sights, log)
    }

    /** `timestamp()`. */
    method TakeTimestamp() returns (t: nat)
      modifies this`stamps
      ensures t == Newest(old(stamps)) && stamps == Popped(old(stamps))
    {
      t := 0;
      if stamps != [] {
        t, stamps := stamps[0], stamps[1..];
      }
    }

    method CleanCoroutine()
      modifies this`coroutines
      ensures coroutines == Popped(old(coroutines))
    {
      if coroutines != [] {
        coroutines := coroutines[1..];
      }
    }

    method CleanSuspender()
      modifies this`suspenders
      ensures suspenders == Popped(old(suspenders))
    {
      if suspenders != [] {
        suspenders := suspenders[1..];
      }
    }

    /** The rest of `resume_with` once the body has handed over. */
    method HandOverBack(id: Id, end: Ending) returns (told: Option<CoroutineState>)
      requires id in cells
      modifies this
      ensures Back(State(), told) == HandedOver(old(State()), id, end)
    {
      var cell := cells[id];
      log := log + [HandOver(id, end, cell, Told(stamps, end, cell))];
      if end.Delays? {
        stamps := [end.t] + stamps;
      }
      CleanSuspender();
      if YieldsAs(end) {
        match cell {
          case Running =>
            var timestamp := TakeTimestamp();
            told := ToSuspended(cell, timestamp);
          case SystemCall(_, _) =>
            told := Some(cell);
          case _ =>
            told := None;
        }
      } else if end == Finishes {
        told := ToComplete(cell);
      } else {
        told := ToError(cell, end.message);
      }
      if told.Some? {
        cells := cells[id := told.value];
        CleanCoroutine();
      }
    }

    /** `resume_with` on coroutine `id`, whose body does `body` until it hands over. */
    method ResumeWith(id: Id, now: nat, body: Body) returns (told: Option<CoroutineState>)
      requires id !in suspenders
      modifies this
      ensures Back(State(), told) == Resume(old(State()), id, now, body)
      decreases body, 1
    {
      var cell := if id in cells then cells[id] else Created;
      if cell == Complete {
        return Some(Complete);
      }
      var running := ToRunning(cell, now);
      if running.None? {
        return None;
      }
      cells := cells[id := running.value];
      coroutines := [id] + coroutines;
      suspenders := [id] + suspenders;
      sights := sights + [Sight(id, coroutines, suspenders)];
      assert State() == Entered(old(State()), id, running.value);
      told := RunBody(id, body);
    }

    method RunBody(id: Id, body: Body) returns (told: Option<CoroutineState>)
      requires id in cells
      modifies this
      ensures Back(State(), told) == Execute(old(State()), id, body)
      decreases body, 0
    {
      match body
      case Ends(end) =>
        told := HandOverBack(id, end);
      case Hook(act, rest) =>
        if coroutines != [] {
          var top := coroutines[0];
          cells := cells[top := HookStep(if top in cells then cells[top] else Created, act)];
        }
        told := RunBody(id, rest);
      case Nest(other, now, inner, rest) =>
        if other !in suspenders {
          var _ := ResumeWith(other, now, inner);
        }
        CellsGrow(old(State()), other, now, inner);
        sights := sights + [Sight(id, coroutines, suspenders)];
        told := RunBody(id, rest);
    }
  }

  lemma {:induction false} CellsGrow(th: Thread, id: Id, now: nat, body: Body)
    ensures th.cells.Keys <= Resume(th, id, now, body).thread.cells.Keys
    decreases body, 1
  {
    var cell := Cell(th, id);
    if id !in th.suspenders && cell != Complete && ToRunning(cell, now).Some? {
      ExecuteCellsGrow(Entered(th, id, ToRunning(cell, now).value), id, body);
    }
  }

  lemma {:induction false} ExecuteCellsGrow(th: Thread, id: Id, body: Body)
    ensures th.cells.Keys <= Execute(th, id, body).thread.cells.Keys
    decreases body, 0
  {
    match body
    case Ends(end) =>
    case Hook(act, rest) =>
      ExecuteCellsGrow(Hooked(th, act), id, rest);
    case Nest(other, now, inner, rest) =>
      CellsGrow(th, other, now, inner);
      ExecuteCellsGrow(Look(Resume(th, other, now, inner).thread, id), id, rest);
  }
}
