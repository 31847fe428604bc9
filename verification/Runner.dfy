/** jsconsumer's Runner and Run as step systems: one consume loop with its handler, watcher,
    floor poll and any number of Stop callers; and the supervision loop that recreates it. */
module Runner {
  import opened Basics
  import F = Floor

  /** Where the one execution inside Runner.stop stands. */
  datatype Once =
    | NotBegun
    | Pulled                      // cc.Stop has returned; the timer is not armed yet
    | Windowed(armedAt: int)      // waiting for the loop or the window
    | Expired                     // the window won; the cancellation is next
    | Awaiting                    // waiting for the loop to close
    | Closing                     // the loop closed; the final cancellation is next
    | Completed

  /** A Stop call: waiting for the once, then for the loop, then for the poll. */
  datatype Caller = InOnce | PastOnce | PastLoop | Returned

  datatype PollState = NoPoll | Polling | PollEnded

  datatype Loop = Loop(
    window: int, time: int,
    ctxDone: bool, busy: bool, closed: bool, cancelled: bool,
    stoppedAt: Option<int>, once: Once, poll: PollState,
    callers: map<nat, Caller>)

  predicate Started(r: Loop) {
    && r.window >= 0 && !r.closed && !r.cancelled && r.stoppedAt.None? && r.once.NotBegun? && r.callers == map[]
    && !r.poll.PollEnded? && !r.busy
  }

  datatype Event =
    | Elapse(d: nat)
    | ParentCancelled
    | Deliver
    | HandlerReturns
    | LoopCloses
    | PollEnds
    | StopCalled(id: nat)
    | StopPulling(id: nat)
    | ArmTimer
    | LoopWins
    | WindowWins
    | CancelExpired
    | SawClosed
    | CancelFinal
    | OnceReturns(id: nat)
    | LoopJoined(id: nat)
    | PollJoined(id: nat)

  /** The watcher is the caller with this id: it calls Stop once the parent or the loop ends. */
  const WATCHER: nat := 0

  predicate CallerAt(callers: map<nat, Caller>, id: nat, c: Caller) { id in callers && callers[id] == c }

  predicate CallerIn(r: Loop, id: nat, c: Caller) { CallerAt(r.callers, id, c) }

  predicate Enabled(r: Loop, e: Event) {
    match e
    case Elapse(_) => true
    case ParentCancelled => true
    case Deliver => !r.busy && !r.closed && r.stoppedAt.None?
    case HandlerReturns => r.busy
    case LoopCloses => !r.busy && !r.closed
    case PollEnds => r.poll.Polling? && (r.cancelled || r.closed)
    case StopCalled(id) => id !in r.callers && (id == WATCHER ==> r.ctxDone || r.closed)
    case StopPulling(id) => CallerIn(r, id, InOnce) && r.once.NotBegun?
    case ArmTimer => r.once.Pulled?
    case LoopWins => r.once.Windowed? && r.closed
    case WindowWins => r.once.Windowed? && !r.closed && r.time >= r.once.armedAt + r.window
    case CancelExpired => r.once.Expired?
    case SawClosed => r.once.Awaiting? && r.closed
    case CancelFinal => r.once.Closing?
    case OnceReturns(id) => CallerIn(r, id, InOnce) && r.once.Completed?
    case LoopJoined(id) => CallerIn(r, id, PastOnce) && r.closed
    case PollJoined(id) => CallerIn(r, id, PastLoop) && !r.poll.Polling?
  }

  function Step(r: Loop, e: Event): Loop
    requires Enabled(r, e)
  {
    match e
    case Elapse(d) => r.(time := r.time + d)
    case ParentCancelled => r.(ctxDone := true)
    case Deliver => r.(busy := true)
    case HandlerReturns => r.(busy := false)
    case LoopCloses => r.(closed := true)
    case PollEnds => r.(poll := PollEnded)
    case StopCalled(id) => r.(callers := r.callers[id := InOnce])
    case StopPulling(_) => r.(stoppedAt := Some(r.time), once := Pulled)
    case ArmTimer => r.(once := Windowed(r.time))
    case LoopWins => r.(once := Awaiting)
    case WindowWins => r.(once := Expired)
    case CancelExpired => r.(cancelled := true, once := Awaiting)
    case SawClosed => r.(once := Closing)
    case CancelFinal => r.(cancelled := true, once := Completed)
    case OnceReturns(id) => r.(callers := r.callers[id := PastOnce])
    case LoopJoined(id) => r.(callers := r.callers[id := PastLoop])
    case PollJoined(id) => r.(callers := r.callers[id := Returned])
  }

  ghost predicate Trace(rs: seq<Loop>, es: seq<Event>) {
    && |rs| == |es| + 1 && Started(rs[0])
    && forall i :: 0 <= i < |es| ==> Enabled(rs[i], es[i]) && rs[i + 1] == Step(rs[i], es[i])
  }

  predicate WindowPassed(r: Loop) {
    r.stoppedAt.Some? && r.time >= r.stoppedAt.value + r.window
  }

  ghost predicate Inv(r: Loop) {
    && r.window >= 0
    && (r.stoppedAt.None? <==> r.once.NotBegun?)
    && (r.stoppedAt.Some? ==> r.stoppedAt.value <= r.time)
    && (r.once.Windowed? ==> r.stoppedAt.value <= r.once.armedAt <= r.time)
    && (r.once.Expired? ==> WindowPassed(r))
    && (r.once.Closing? || r.once.Completed? ==> r.closed)
    && (r.once.Completed? ==> r.cancelled)
    && (r.cancelled ==> r.closed || WindowPassed(r))
    && (r.once.Awaiting? ==> r.closed || r.cancelled)
    && (r.closed ==> !r.busy)
    && (forall id :: id in r.callers && !r.callers[id].InOnce? ==> r.once.Completed?)
    && (forall id :: id in r.callers && r.callers[id].Returned? ==> r.closed && r.cancelled && !r.poll.Polling?)
  }

  lemma StepKeepsInv(r: Loop, e: Event)
    requires Inv(r) && Enabled(r, e)
    ensures Inv(Step(r, e))
  {
  }

  lemma {:induction false} TraceKeepsInv(rs: seq<Loop>, es: seq<Event>, i: nat)
    requires Trace(rs, es) && i <= |es|
    ensures Inv(rs[i])
  {
    if i > 0 {
      TraceKeepsInv(rs, es, i - 1);
      StepKeepsInv(rs[i - 1], es[i - 1]);
    }
  }

  /** The handler's context is cancelled only after the loop has closed or the full drain
      window has passed since pulling stopped; so a handler still in flight when its context
      dies has had the whole window. The parent's own cancellation never reaches it. */
  lemma CancelledOnlyAfterTheWindow(rs: seq<Loop>, es: seq<Event>, i: nat)
    requires Trace(rs, es) && i < |es| && !rs[i].cancelled && rs[i + 1].cancelled
    ensures rs[i].closed || WindowPassed(rs[i])
    ensures rs[i].busy ==> WindowPassed(rs[i])
    ensures es[i].CancelExpired? || es[i].CancelFinal?
  {
    TraceKeepsInv(rs, es, i);
    assert rs[i + 1] == Step(rs[i], es[i]);
  }

  /** A loop that has closed before the window was found to have passed is never treated as
      having outlasted it, even where both are ready together: no expiry is taken and no
      handler is cancelled for it. */
  lemma {:induction false} NoExpiryAfterClose(rs: seq<Loop>, es: seq<Event>, k: nat, j: nat)
    requires Trace(rs, es) && k <= j <= |es| && rs[k].closed && !rs[k].once.Expired?
    ensures rs[j].closed && !rs[j].once.Expired?
    ensures forall m :: k <= m < j ==> !es[m].WindowWins? && !es[m].CancelExpired?
  {
    if k < j {
      NoExpiryAfterClose(rs, es, k, j - 1);
      assert rs[j] == Step(rs[j - 1], es[j - 1]);
    }
  }

  /** Every Stop of a started runner returns only after the loop and any floor poll have
      ended, with the handler context released and no handler in flight; and pulling stops
      once, however many callers race. */
  lemma StopJoinsEverything(rs: seq<Loop>, es: seq<Event>, i: nat, id: nat)
    requires Trace(rs, es) && i <= |es| && CallerIn(rs[i], id, Returned)
    ensures rs[i].closed && rs[i].cancelled && !rs[i].busy && !rs[i].poll.Polling?
    ensures rs[i].stoppedAt.Some?
  {
    TraceKeepsInv(rs, es, i);
  }

  lemma PullingStaysStopped(r: Loop, e: Event)
    requires Inv(r) && Enabled(r, e) && r.stoppedAt.Some?
    ensures Step(r, e).stoppedAt == r.stoppedAt && !e.StopPulling? && !e.Deliver?
  {
  }

  lemma {:induction false} PullingStopsOnce(rs: seq<Loop>, es: seq<Event>, i: nat, j: nat)
    requires Trace(rs, es) && i <= j <= |es| && rs[i].stoppedAt.Some?
    ensures rs[j].stoppedAt == rs[i].stoppedAt
    ensures forall k :: i <= k < j ==> !es[k].StopPulling? && !es[k].Deliver?
  {
    if i < j {
      PullingStopsOnce(rs, es, i, j - 1);
      TraceKeepsInv(rs, es, j - 1);
      PullingStaysStopped(rs[j - 1], es[j - 1]);
    }
  }

  /** Every started runner is covered: any window, clock and parent, with a poll or without. */
  lemma AnyRunnerStarts(window: int, time: int, ctxDone: bool, poll: PollState)
    ensures Started(Loop(window, time, ctxDone, false, false, false, None, NotBegun, poll, map[])) <==>
      window >= 0 && !poll.PollEnded?
  {
  }

  /** Nothing in the protocol holds back what it does not control: time, the parent, a handler
      in flight, further Stop callers. A message is delivered exactly to an idle, open loop that
      has not stopped pulling, and an idle loop may close at any time. */
  lemma OthersAreFree(r: Loop, d: nat, id: nat)
    ensures Enabled(r, Elapse(d)) && Enabled(r, ParentCancelled)
    ensures Enabled(r, Deliver) <==> !r.busy && !r.closed && r.stoppedAt.None?
    ensures Enabled(r, HandlerReturns) <==> r.busy
    ensures Enabled(r, LoopCloses) <==> !r.busy && !r.closed
    ensures Enabled(r, PollEnds) <==> r.poll.Polling? && (r.cancelled || r.closed)
    ensures id !in r.callers && id != WATCHER ==> Enabled(r, StopCalled(id)) && id in Step(r, StopCalled(id)).callers
  {
  }

  // ---------------------------------------------------------------- what the state records

  ghost predicate Saw(es: seq<Event>, j: nat, e: Event)
    requires j <= |es|
  {
    exists k :: 0 <= k < j && es[k] == e
  }

  lemma SawStep(es: seq<Event>, j: nat, e: Event)
    requires 0 < j <= |es|
    ensures Saw(es, j, e) <==> Saw(es, j - 1, e) || es[j - 1] == e
  {
  }

  function Elapsed(es: seq<Event>, j: nat): nat
    requires j <= |es|
  {
    if j == 0 then 0 else Elapsed(es, j - 1) + if es[j - 1].Elapse? then es[j - 1].d else 0
  }

  /** A delivery has been handed to the handler and it has not returned since. */
  predicate InFlight(es: seq<Event>, j: nat)
    requires j <= |es|
  {
    j > 0 && (es[j - 1].Deliver? || (!es[j - 1].HandlerReturns? && InFlight(es, j - 1)))
  }

  /** The runner's state is its history: the clock is what has elapsed, and a handler in flight,
      a closed loop, a cancelled parent, a cancelled handler context and a live poll are exactly
      what has happened, whatever Stop is doing. */
  lemma {:induction false} StateIsHistory(rs: seq<Loop>, es: seq<Event>, j: nat)
    requires Trace(rs, es) && j <= |es|
    ensures rs[j].time == rs[0].time + Elapsed(es, j) && rs[j].window == rs[0].window
    ensures rs[j].busy <==> InFlight(es, j)
    ensures rs[j].closed <==> Saw(es, j, LoopCloses)
    ensures rs[j].ctxDone <==> rs[0].ctxDone || Saw(es, j, ParentCancelled)
    ensures rs[j].cancelled <==> Saw(es, j, CancelExpired) || Saw(es, j, CancelFinal)
    ensures rs[j].poll.Polling? <==> rs[0].poll.Polling? && !Saw(es, j, PollEnds)
  {
    if j > 0 {
      StateIsHistory(rs, es, j - 1);
      StateStep(rs[j - 1], es[j - 1]);
      SawStep(es, j, LoopCloses);
      SawStep(es, j, ParentCancelled);
      SawStep(es, j, CancelExpired);
      SawStep(es, j, CancelFinal);
      SawStep(es, j, PollEnds);
    }
  }

  lemma StateStep(r: Loop, e: Event)
    requires Enabled(r, e)
    ensures var t := Step(r, e);
            && t.time == r.time + (if e.Elapse? then e.d else 0) && t.window == r.window
            && t.busy == (e.Deliver? || (r.busy && !e.HandlerReturns?))
            && t.closed == (r.closed || e.LoopCloses?)
            && t.ctxDone == (r.ctxDone || e.ParentCancelled?)
            && t.cancelled == (r.cancelled || e.CancelExpired? || e.CancelFinal?)
            && (t.poll.Polling? <==> r.poll.Polling? && !e.PollEnds?)
  {
  }

  /** The parent's cancellation, or the loop closing on its own, starts a Stop: from then on
      the watcher has called it or can. And it calls it for no other reason. */
  lemma ParentOrLoopStartsAStop(rs: seq<Loop>, es: seq<Event>, j: nat)
    requires Trace(rs, es) && j <= |es|
    ensures rs[0].ctxDone || Saw(es, j, ParentCancelled) || Saw(es, j, LoopCloses) <==>
      WATCHER in rs[j].callers || Enabled(rs[j], StopCalled(WATCHER))
  {
    StateIsHistory(rs, es, j);
    WatcherHasACause(rs, es, j);
  }

  lemma {:induction false} WatcherHasACause(rs: seq<Loop>, es: seq<Event>, j: nat)
    requires Trace(rs, es) && j <= |es|
    ensures WATCHER in rs[j].callers ==> rs[j].ctxDone || rs[j].closed
  {
    if j > 0 {
      WatcherHasACause(rs, es, j - 1);
    }
  }

  // ---------------------------------------------------------------- Stop makes progress

  /** A step some Stop call takes. */
  predicate StopStep(e: Event) {
    match e
    case StopPulling(_) => true
    case ArmTimer => true
    case LoopWins => true
    case WindowWins => true
    case CancelExpired => true
    case SawClosed => true
    case CancelFinal => true
    case OnceReturns(_) => true
    case LoopJoined(_) => true
    case PollJoined(_) => true
    case _ => false
  }

  predicate WindowRunning(r: Loop) {
    r.once.Windowed? && r.time < r.once.armedAt + r.window
  }

  /** What can happen next while a Stop call has not returned. Some Stop call can take a step,
      or a poll whose loop has closed is about to end, or the loop is still open and all are
      waiting for it, within the window or past the cancellation; and an open loop with no
      handler in flight can close. */
  predicate StopMoves(r: Loop, e: Event) {
    || (StopStep(e) && Enabled(r, e))
    || (e.PollEnds? && r.closed && Enabled(r, e))
    || (e.LoopCloses? && !r.closed && (WindowRunning(r) || (r.once.Awaiting? && r.cancelled)) && (!r.busy ==> Enabled(r, e)))
  }

  lemma CallerMoves(r: Loop, id: nat) returns (e: Event)
    requires Inv(r) && id in r.callers && !r.callers[id].Returned?
    ensures StopMoves(r, e)
  {
    match r.callers[id]
    case PastOnce => e := LoopJoined(id);
    case PastLoop => e := if r.poll.Polling? then PollEnds else PollJoined(id);
    case _ =>
      match r.once {
        case NotBegun => e := StopPulling(id);
        case Pulled => e := ArmTimer;
        case Windowed(_) => e := if r.closed then LoopWins else if WindowRunning(r) then LoopCloses else WindowWins;
        case Expired => e := CancelExpired;
        case Awaiting => e := if r.closed then SawClosed else LoopCloses;
        case Closing => e := CancelFinal;
        case Completed => e := OnceReturns(id);
      }
  }

  /** Stop is never stuck on itself, in any trace. */
  lemma StopIsNeverStuck(rs: seq<Loop>, es: seq<Event>, i: nat, id: nat) returns (e: Event)
    requires Trace(rs, es) && i <= |es| && id in rs[i].callers && !rs[i].callers[id].Returned?
    ensures var r := rs[i];
            || (StopStep(e) && Enabled(r, e))
            || (e.PollEnds? && r.closed && Enabled(r, e))
            || (e.LoopCloses? && !r.closed && (WindowRunning(r) || (r.once.Awaiting? && r.cancelled)) && (!r.busy ==> Enabled(r, e)))
  {
    TraceKeepsInv(rs, es, i);
    e := CallerMoves(rs[i], id);
  }

  function OnceLeft(o: Once): nat {
    match o
    case NotBegun => 6
    case Pulled => 5
    case Windowed(_) => 4
    case Expired => 3
    case Awaiting => 2
    case Closing => 1
    case Completed => 0
  }

  function InFirst(callers: map<nat, Caller>): set<nat> {
    set id | id in callers && callers[id].InOnce?
  }

  function BeforeLoop(callers: map<nat, Caller>): set<nat> {
    set id | id in callers && (callers[id].InOnce? || callers[id].PastOnce?)
  }

  function Unreturned(callers: map<nat, Caller>): set<nat> {
    set id | id in callers && !callers[id].Returned?
  }

  /** Each caller has three stages to pass: the once, the loop, the poll. */
  function StagesLeft(callers: map<nat, Caller>): nat {
    |InFirst(callers)| + |BeforeLoop(callers)| + |Unreturned(callers)|
  }

  /** Steps the present callers still have to take between them, at most. */
  function StepsLeft(r: Loop): nat {
    OnceLeft(r.once) + StagesLeft(r.callers)
  }

  lemma LeavesFirst(callers: map<nat, Caller>, id: nat)
    requires CallerAt(callers, id, InOnce)
    ensures StagesLeft(callers[id := PastOnce]) + 1 == StagesLeft(callers)
  {
    var after := callers[id := PastOnce];
    assert InFirst(after) == InFirst(callers) - {id};
    assert BeforeLoop(after) == BeforeLoop(callers) && Unreturned(after) == Unreturned(callers);
  }

  lemma LeavesSecond(callers: map<nat, Caller>, id: nat)
    requires CallerAt(callers, id, PastOnce)
    ensures StagesLeft(callers[id := PastLoop]) + 1 == StagesLeft(callers)
  {
    var after := callers[id := PastLoop];
    assert BeforeLoop(after) == BeforeLoop(callers) - {id};
    assert InFirst(after) == InFirst(callers) && Unreturned(after) == Unreturned(callers);
  }

  lemma LeavesThird(callers: map<nat, Caller>, id: nat)
    requires CallerAt(callers, id, PastLoop)
    ensures StagesLeft(callers[id := Returned]) + 1 == StagesLeft(callers)
  {
    var after := callers[id := Returned];
    assert Unreturned(after) == Unreturned(callers) - {id};
    assert InFirst(after) == InFirst(callers) && BeforeLoop(after) == BeforeLoop(callers);
  }

  lemma StopStepCounts(r: Loop, e: Event)
    requires Inv(r) && Enabled(r, e) && !e.StopCalled?
    ensures StepsLeft(Step(r, e)) + (if StopStep(e) then 1 else 0) <= StepsLeft(r)
  {
    match e
    case OnceReturns(id) => LeavesFirst(r.callers, id);
    case LoopJoined(id) => LeavesSecond(r.callers, id);
    case PollJoined(id) => LeavesThird(r.callers, id);
    case _ =>
  }

  ghost function StopSteps(es: seq<Event>, a: nat, b: nat): nat
    requires a <= b <= |es|
  {
    if a == b then 0 else StopSteps(es, a, b - 1) + if StopStep(es[b - 1]) then 1 else 0
  }

  /** And it does not go on for ever: between new calls the callers take no more steps than
      they have left, six for the once and three each, whatever else happens meanwhile. */
  lemma {:induction false} StopStepsAreBounded(rs: seq<Loop>, es: seq<Event>, a: nat, b: nat)
    requires Trace(rs, es) && a <= b <= |es|
    requires forall i :: a <= i < b ==> !es[i].StopCalled?
    ensures StopSteps(es, a, b) + StepsLeft(rs[b]) <= StepsLeft(rs[a]) <= 6 + 3 * |rs[a].callers|
  {
    if a < b {
      StopStepsAreBounded(rs, es, a, b - 1);
      TraceKeepsInv(rs, es, b - 1);
      StopStepCounts(rs[b - 1], es[b - 1]);
    } else {
      FewerThanCallers(rs[a].callers);
    }
  }

  lemma FewerThanCallers(callers: map<nat, Caller>)
    ensures |InFirst(callers)| <= |callers| && |BeforeLoop(callers)| <= |callers| && |Unreturned(callers)| <= |callers|
  {
    Subset(InFirst(callers), callers.Keys);
    Subset(BeforeLoop(callers), callers.Keys);
    Subset(Unreturned(callers), callers.Keys);
  }

  lemma Subset(a: set<nat>, b: set<nat>)
    requires a <= b
    ensures |a| <= |b|
  {
    assert b == a + (b - a);
  }

  // ---------------------------------------------------------------- supervision

  const RETRY_INITIAL: int := 1_000_000_000
  const RETRY_MAX: int := 30_000_000_000

  /** Supervising is the select on the parent and the loop; Stopping is inside r.Stop. A clean
      end is a nil return. */
  datatype Phase = Starting | Supervising | Stopping | Sleeping | Ended(clean: bool)

  /** Every runner this Run has started, the last being the current attempt's; when that one
      started; the monitor's poll counters; the retry delay; and whether Run's own context is
      done. */
  datatype Sup = Sup(runners: seq<Loop>, started: int, phase: Phase, delay: int, polls: F.Polls, ctxDone: bool)

  /** Wakes is the select on the context and the pause: its timer won, or the context did. */
  datatype SupEvent =
    | CtxCancelled
    | StartFails(retryable: bool)
    | StartSucceeds(r: Loop)
    | Within(k: nat, e: Event)
    | LoopOrParentEnds
    | Stopped
    | Wakes(timer: bool)

  /** Run's own Stop call on an attempt's runner. */
  const RUN: nat := 1

  function Double(delay: int): int { Min(delay * 2, RETRY_MAX) }

  /** Runner k is the attempt Run is watching or stopping; the contexts of the others have been
      released. */
  predicate Attended(s: Sup, k: nat) {
    k + 1 == |s.runners| && s.phase in {Supervising, Stopping}
  }

  predicate SupEnabled(s: Sup, e: SupEvent) {
    match e
    case CtxCancelled => true
    case StartFails(_) => s.phase.Starting?
    case StartSucceeds(r) => s.phase.Starting? && Started(r) && (r.ctxDone ==> s.ctxDone)
    case Within(k, ev) =>
      && k < |s.runners| && Enabled(s.runners[k], ev)
      && ev != StopCalled(RUN) && (ev.ParentCancelled? ==> s.ctxDone || !Attended(s, k))
    case LoopOrParentEnds =>
      && s.phase.Supervising? && s.runners != [] && RUN !in Current(s).callers
      && (Current(s).closed || s.ctxDone)
    case Stopped => s.phase.Stopping? && s.runners != [] && CallerIn(Current(s), RUN, Returned)
    case Wakes(timer) => s.phase.Sleeping? && (timer || s.ctxDone)
  }

  function Current(s: Sup): Loop
    requires s.runners != []
  {
    s.runners[|s.runners| - 1]
  }

  /** The current attempt has outlived the envelope, on the clock its loop runs on. */
  predicate Healthy(s: Sup)
    requires s.runners != []
  {
    Current(s).time - s.started >= RETRY_MAX
  }

  /** Run gives up only when its context is done or the start error is permanent; the delay
      doubles after every attempt and is reset by a healthy one. A start that carries a poll
      enters it, and the poll leaves it when it ends. */
  function SupStep(s: Sup, e: SupEvent): Sup
    requires SupEnabled(s, e)
  {
    match e
    case CtxCancelled => s.(ctxDone := true)
    case StartFails(retryable) =>
      s.(phase := if s.ctxDone then Ended(true) else if !retryable then Ended(false) else Sleeping)
    case StartSucceeds(r) =>
      s.(runners := s.runners + [r], started := r.time, phase := Supervising,
         polls := if r.poll.Polling? then F.Entered(s.polls) else s.polls)
    case Within(k, ev) =>
      s.(runners := s.runners[k := Step(s.runners[k], ev)], polls := if ev.PollEnds? then F.Left(s.polls) else s.polls)
    case LoopOrParentEnds =>
      s.(runners := s.runners[|s.runners| - 1 := Step(Current(s), StopCalled(RUN))], phase := Stopping)
    case Stopped =>
      s.(phase := if s.ctxDone then Ended(true) else Sleeping,
         delay := if Healthy(s) && !s.ctxDone then RETRY_INITIAL else s.delay)
    case Wakes(timer) => if timer then s.(phase := Starting, delay := Double(s.delay)) else s.(phase := Ended(true))
  }

  const SUP_START := Sup([], 0, Starting, RETRY_INITIAL, F.NO_POLLS, false)

  ghost predicate SupTrace(ss: seq<Sup>, es: seq<SupEvent>) {
    && |ss| == |es| + 1 && ss[0] == SUP_START
    && forall i :: 0 <= i < |es| ==> SupEnabled(ss[i], es[i]) && ss[i + 1] == SupStep(ss[i], es[i])
  }

  /** Runner k is down: its loop has closed and its poll, if it had one, has ended. */
  predicate Down(r: Loop) { r.closed && !r.poll.Polling? }

  ghost predicate SupInv(s: Sup) {
    && (forall k :: 0 <= k < |s.runners| ==> Inv(s.runners[k]))
    && (forall k :: 0 <= k < |s.runners| - 1 ==> Down(s.runners[k]))
    && (s.phase !in {Supervising, Stopping} && s.runners != [] ==> Down(Current(s)))
    && (s.phase in {Supervising, Stopping} ==> s.runners != [])
    && (s.phase.Supervising? ==> RUN !in Current(s).callers)
    && (s.phase.Stopping? ==> RUN in Current(s).callers)
    && s.polls.live == (if s.runners != [] && Current(s).poll.Polling? then 1 else 0)
    && s.polls.live <= s.polls.most <= 1
    && RETRY_INITIAL <= s.delay <= RETRY_MAX
  }

  lemma WithinKeepsInv(s: Sup, k: nat, e: Event)
    requires SupInv(s) && k < |s.runners| && Enabled(s.runners[k], e)
    requires e != StopCalled(RUN) || (k == |s.runners| - 1 && s.phase.Supervising?)
    ensures SupInv(s.(runners := s.runners[k := Step(s.runners[k], e)],
                      phase := if e == StopCalled(RUN) then Stopping else s.phase,
                      polls := if e.PollEnds? then F.Left(s.polls) else s.polls))
  {
    StepKeepsInv(s.runners[k], e);
  }

  lemma SupStepKeepsInv(s: Sup, e: SupEvent)
    requires SupInv(s) && SupEnabled(s, e)
    ensures SupInv(SupStep(s, e))
  {
    match e
    case Within(k, ev) => WithinKeepsInv(s, k, ev);
    case LoopOrParentEnds => WithinKeepsInv(s, |s.runners| - 1, StopCalled(RUN));
    case _ =>
  }

  lemma {:induction false} SupTraceKeepsInv(ss: seq<Sup>, es: seq<SupEvent>, i: nat)
    requires SupTrace(ss, es) && i <= |es|
    ensures SupInv(ss[i])
  {
    if i > 0 {
      SupTraceKeepsInv(ss, es, i - 1);
      SupStepKeepsInv(ss[i - 1], es[i - 1]);
    }
  }

  /** Across all of Run's recreates, in every interleaving with earlier attempts' watchers and
      handlers, at most one floor poll is ever live. */
  lemma AtMostOneFloorPoll(ss: seq<Sup>, es: seq<SupEvent>, i: nat, j: nat, k: nat)
    requires SupTrace(ss, es) && i <= |es|
    requires j < |ss[i].runners| && k < |ss[i].runners|
    requires ss[i].runners[j].poll.Polling? && ss[i].runners[k].poll.Polling?
    ensures j == k == |ss[i].runners| - 1
    ensures ss[i].polls == F.Polls(1, 1)
  {
    SupTraceKeepsInv(ss, es, i);
  }

  function Pow2(n: nat): nat { if n == 0 then 1 else 2 * Pow2(n - 1) }

  /** How long the current attempt's loop has lived: what has elapsed on it since it started. */
  ghost function Lived(ss: seq<Sup>, es: seq<SupEvent>, i: nat): nat
    requires |ss| == |es| + 1 && i <= |es|
  {
    if i == 0 then 0
    else match es[i - 1]
      case StartSucceeds(_) => 0
      case Within(k, Elapse(d)) => Lived(ss, es, i - 1) + if k + 1 == |ss[i - 1].runners| then d else 0
      case _ => Lived(ss, es, i - 1)
  }

  lemma {:induction false} LivedOnTheClock(ss: seq<Sup>, es: seq<SupEvent>, i: nat)
    requires SupTrace(ss, es) && i <= |es| && ss[i].runners != []
    ensures Age(ss[i]) == Lived(ss, es, i)
  {
    ClockStep(ss[i - 1], es[i - 1]);
    assert ss[i] == SupStep(ss[i - 1], es[i - 1]);
    if !es[i - 1].StartSucceeds? {
      LivedOnTheClock(ss, es, i - 1);
    }
  }

  /** How far the current loop's clock has run. */
  function Age(s: Sup): int { if s.runners == [] then 0 else Current(s).time - s.started }

  lemma ClockStep(s: Sup, e: SupEvent)
    requires SupEnabled(s, e)
    ensures !e.StartSucceeds? ==> |SupStep(s, e).runners| == |s.runners|
    ensures Age(SupStep(s, e)) ==
      if e.StartSucceeds? then 0
      else if e.Within? && e.e.Elapse? && e.k + 1 == |s.runners| then Age(s) + e.e.d
      else Age(s)
  {
    if e.Within? {
      StateStep(s.runners[e.k], e.e);
    }
  }

  /** Pauses slept through since the last attempt that was healthy. */
  ghost function Streak(ss: seq<Sup>, es: seq<SupEvent>, i: nat): nat
    requires SupTrace(ss, es) && i <= |es|
  {
    if i == 0 then 0
    else match es[i - 1]
      case Wakes(true) => Streak(ss, es, i - 1) + 1
      case Stopped =>
        if !SupSaw(es, i - 1, CtxCancelled) && Lived(ss, es, i - 1) >= 30_000_000_000 then 0
        else Streak(ss, es, i - 1)
      case _ => Streak(ss, es, i - 1)
  }

  /** The pause is exponential in the attempts since the last loop that lived thirty seconds,
      capped at thirty seconds: failed starts and flapping loops escalate it alike. */
  lemma {:induction false} DelayIsExponential(ss: seq<Sup>, es: seq<SupEvent>, i: nat)
    requires SupTrace(ss, es) && i <= |es|
    ensures ss[i].delay == Min(1_000_000_000 * Pow2(Streak(ss, es, i)), 30_000_000_000)
  {
    if i > 0 {
      DelayIsExponential(ss, es, i - 1);
      if es[i - 1].Stopped? {
        LivedOnTheClock(ss, es, i - 1);
        ContextIsHistory(ss, es, i - 1);
      }
      assert ss[i] == SupStep(ss[i - 1], es[i - 1]);
    }
  }

  /** When Run has returned, every loop it ever started has closed, no handler is in flight
      and no poll is live; and the pause between attempts always lies in the envelope. */
  lemma RunReturnsWithEverythingDown(ss: seq<Sup>, es: seq<SupEvent>, i: nat)
    requires SupTrace(ss, es) && i <= |es|
    ensures RETRY_INITIAL <= ss[i].delay <= RETRY_MAX
    ensures ss[i].phase.Ended? ==>
      ss[i].polls.live == 0 && forall k :: 0 <= k < |ss[i].runners| ==> ss[i].runners[k].closed && !ss[i].runners[k].busy
  {
    SupTraceKeepsInv(ss, es, i);
  }

  // ---------------------------------------------------------------- Run comes to an end

  ghost predicate SupSaw(es: seq<SupEvent>, j: nat, e: SupEvent)
    requires j <= |es|
  {
    exists k :: 0 <= k < j && es[k] == e
  }

  lemma EndStep(s: Sup, e: SupEvent)
    requires SupEnabled(s, e)
    ensures SupStep(s, e).ctxDone == (s.ctxDone || e.CtxCancelled?)
    ensures e == StartFails(false) ==> !s.phase.Ended?
    ensures SupStep(s, e).phase.Ended? <==>
      s.phase.Ended? || e == StartFails(false) || (s.ctxDone && (e.StartFails? || e.Stopped? || e == Wakes(false)))
    ensures s.phase.Ended? ==> SupStep(s, e).phase == s.phase
    ensures !s.phase.Ended? && SupStep(s, e).phase.Ended? ==> SupStep(s, e).phase.clean == s.ctxDone
  {
  }

  lemma {:induction false} ContextIsHistory(ss: seq<Sup>, es: seq<SupEvent>, j: nat)
    requires SupTrace(ss, es) && j <= |es|
    ensures ss[j].ctxDone <==> SupSaw(es, j, CtxCancelled)
  {
    if j > 0 {
      ContextIsHistory(ss, es, j - 1);
      EndStep(ss[j - 1], es[j - 1]);
      SupSawStep(es, j, CtxCancelled);
    }
  }

  lemma {:induction false} EndedStays(ss: seq<Sup>, es: seq<SupEvent>, k: nat, j: nat)
    requires SupTrace(ss, es) && k <= j <= |es| && ss[k].phase.Ended?
    ensures ss[j].phase == ss[k].phase
  {
    if k < j {
      EndedStays(ss, es, k, j - 1);
      EndStep(ss[j - 1], es[j - 1]);
    }
  }

  lemma {:induction false} EndHasACause(ss: seq<Sup>, es: seq<SupEvent>, j: nat)
    requires SupTrace(ss, es) && j <= |es|
    ensures ss[j].phase == Ended(true) ==> ss[j].ctxDone
    ensures ss[j].phase == Ended(false) ==> SupSaw(es, j, StartFails(false))
  {
    if j > 0 {
      EndHasACause(ss, es, j - 1);
      EndStep(ss[j - 1], es[j - 1]);
      SupSawStep(es, j, StartFails(false));
    }
  }

  /** Run gives up for its context or for a permanent start error and for nothing else: it
      returns nil only once its context is done and an error only for a permanent start error
      met before that; such an error ends it on the spot. */
  lemma RunEndsOnlyFor(ss: seq<Sup>, es: seq<SupEvent>, k: nat, j: nat)
    requires SupTrace(ss, es) && k <= j <= |es|
    ensures ss[j].phase == Ended(true) ==> SupSaw(es, j, CtxCancelled)
    ensures ss[j].phase == Ended(false) ==> SupSaw(es, j, StartFails(false))
    ensures ss[k].phase.Ended? ==> ss[j].phase == ss[k].phase
    ensures k < j && es[k] == StartFails(false) ==> ss[j].phase == Ended(SupSaw(es, k, CtxCancelled))
  {
    EndHasACause(ss, es, j);
    ContextIsHistory(ss, es, j);
    ContextIsHistory(ss, es, k);
    if ss[k].phase.Ended? {
      EndedStays(ss, es, k, j);
    }
    if k < j && es[k] == StartFails(false) {
      EndStep(ss[k], es[k]);
      EndedStays(ss, es, k + 1, j);
    }
  }

  lemma SupSawStep(es: seq<SupEvent>, j: nat, e: SupEvent)
    requires 0 < j <= |es|
    ensures SupSaw(es, j, e) <==> SupSaw(es, j - 1, e) || es[j - 1] == e
  {
  }

  lemma {:induction false} ContextStays(ss: seq<Sup>, es: seq<SupEvent>, k: nat, j: nat)
    requires SupTrace(ss, es) && k <= j <= |es|
    ensures ss[k].ctxDone ==> ss[j].ctxDone
  {
    if k < j {
      ContextStays(ss, es, k, j - 1);
      EndStep(ss[j - 1], es[j - 1]);
    }
  }

  /** Nothing holds back the context or the attempts Run has started, and a start may succeed or
      fail either way. */
  lemma AttemptsAreFree(s: Sup, r: Loop, k: nat, e: Event)
    ensures SupEnabled(s, CtxCancelled)
    ensures s.phase.Starting? ==> SupEnabled(s, StartFails(true)) && SupEnabled(s, StartFails(false))
    ensures s.phase.Starting? && Started(r) && !r.ctxDone ==> SupEnabled(s, StartSucceeds(r))
    ensures k < |s.runners| && Enabled(s.runners[k], e) && e != StopCalled(RUN) && !e.ParentCancelled? ==> SupEnabled(s, Within(k, e))
  {
  }

  /** A step Run itself takes, as against its runners. */
  predicate RunStep(e: SupEvent) { !e.CtxCancelled? && !e.Within? }

  /** Cancelling the context starts a Stop: whenever Run is watching a loop after its context is
      done, or an attempt's context is with it, or the loop has closed, it can go and stop it. */
  lemma ContextStopsTheLoop(ss: seq<Sup>, es: seq<SupEvent>, k: nat, j: nat)
    requires SupTrace(ss, es) && k < j <= |es| && ss[j].phase.Supervising?
    ensures ss[j].runners != []
    ensures es[k].CtxCancelled? || Current(ss[j]).closed ==> SupEnabled(ss[j], LoopOrParentEnds)
    ensures es[k].Within? && es[k].e.ParentCancelled? && Attended(ss[k], es[k].k) ==> SupEnabled(ss[j], LoopOrParentEnds)
  {
    SupTraceKeepsInv(ss, es, j);
    ContextIsHistory(ss, es, j);
    ContextStays(ss, es, k, j);
  }

  /** Run is never stuck: until it has returned it can take a step, or it is watching an open
      loop with its context live, or it is inside a Stop that is itself not stuck. */
  lemma RunIsNeverStuck(ss: seq<Sup>, es: seq<SupEvent>, j: nat) returns (e: SupEvent)
    requires SupTrace(ss, es) && j <= |es| && !ss[j].phase.Ended?
    ensures var s := ss[j];
            || (RunStep(e) && SupEnabled(s, e))
            || (s.phase.Supervising? && s.runners != [] && !Current(s).closed && !s.ctxDone)
            || (s.phase.Stopping? && s.runners != [] && e.Within? && e.k == |s.runners| - 1 && StopMoves(Current(s), e.e))
  {
    SupTraceKeepsInv(ss, es, j);
    var s := ss[j];
    match s.phase
    case Starting => e := StartFails(true);
    case Sleeping => e := Wakes(true);
    case Supervising => e := LoopOrParentEnds;
    case Ended(_) => assert false;
    case Stopping =>
      if CallerIn(Current(s), RUN, Returned) {
        e := Stopped;
      } else {
        var ev := CallerMoves(Current(s), RUN);
        e := Within(|s.runners| - 1, ev);
      }
  }

  function RunStepsLeft(p: Phase): nat {
    match p
    case Sleeping => 4
    case Starting => 3
    case Supervising => 2
    case Stopping => 1
    case Ended(_) => 0
  }

  ghost function RunSteps(es: seq<SupEvent>, a: nat, b: nat): nat
    requires a <= b <= |es|
  {
    if a == b then 0 else RunSteps(es, a, b - 1) + if RunStep(es[b - 1]) then 1 else 0
  }

  /** And with its context done it takes at most four more steps, one last start among them,
      before it returns. */
  lemma {:induction false} RunEndsAfterCancellation(ss: seq<Sup>, es: seq<SupEvent>, a: nat, b: nat)
    requires SupTrace(ss, es) && a <= b <= |es| && ss[a].ctxDone
    ensures ss[b].ctxDone
    ensures RunSteps(es, a, b) + RunStepsLeft(ss[b].phase) <= RunStepsLeft(ss[a].phase) <= 4
  {
    if a < b {
      RunEndsAfterCancellation(ss, es, a, b - 1);
      assert ss[b] == SupStep(ss[b - 1], es[b - 1]);
    }
  }
}
