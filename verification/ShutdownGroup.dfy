/** nuts.ShutdownGroup: the lock-protected core as an object, and the whole protocol as a
    step system in which loops, callers, the parent context, the join timer and the drains
    interleave freely. */
module ShutdownGroup {
  import opened Basics

  datatype Failure = Premature(loop: nat) | Panicked(loop: nat) | JoinTimeout | DrainFailed(conn: nat)

  /** Why the group's context ended: plain cancellation, its parent, or a failure. */
  datatype Cause = Cancelled | ParentDone | Failed(f: Failure)

  /** What the mutex and the context protect. wg is the wait group's counter. */
  datatype Core = Core(closed: bool, conns: seq<nat>, err: Option<Failure>, ctx: Option<Cause>, wg: int)

  /** Only the first cancellation sets the cause. */
  function Cancel(c: Core, cause: Cause): Core {
    if c.ctx.None? then c.(ctx := Some(cause)) else c
  }

  function Register(c: Core): Core {
    if c.closed then c else c.(wg := c.wg + 1)
  }

  function Accept(c: Core, conn: nat): Core {
    if c.closed then c else c.(conns := c.conns + [conn])
  }

  /** The lock region of recordError: keep the first failure. */
  function Keep(c: Core, f: Failure): Core {
    if c.err.None? then c.(err := Some(f)) else c
  }

  /** The lock region of recordPrematureReturn: a return counts only while the group is live. */
  function KeepPremature(c: Core, loop: nat): Core {
    if c.closed || c.ctx.Some? then c else Keep(c, Premature(loop))
  }

  class Group {
    var closed: bool
    var conns: seq<nat>
    var err: Option<Failure>
    var ctx: Option<Cause>
    var wg: int

    ghost function State(): Core
      reads this
    {
      Core(closed, conns, err, ctx, wg)
    }

    constructor ()
      ensures State() == Core(false, [], None, None, 0)
    {
      closed, conns, err, ctx, wg := false, [], None, None, 0;
    }

    method CancelContext(cause: Cause)
      modifies `ctx
      ensures State() == Cancel(old(State()), cause)
    {
      if ctx.None? {
        ctx := Some(cause);
      }
    }

    /** The part of Go before the goroutine starts. */
    method Go() returns (started: bool)
      modifies `wg
      ensures started == !old(closed) && State() == Register(old(State()))
    {
      if closed {
        return false;
      }
      wg := wg + 1;
      return true;
    }

    method AddConn(conn: nat)
      modifies `conns
      ensures State() == Accept(old(State()), conn)
    {
      if closed {
        return;
      }
      conns := conns + [conn];
    }

    /** True when this failure is the first: the caller then cancels with it as the cause. */
    method RecordError(f: Failure) returns (recorded: bool)
      modifies `err
      ensures recorded == old(err).None? && State() == Keep(old(State()), f)
    {
      recorded := false;
      if err.None? {
        err := Some(f);
        recorded := true;
      }
    }

    method RecordPrematureReturn(loop: nat) returns (recorded: bool)
      modifies `err
      ensures recorded == (old(err).None? && !closed && ctx.None?)
      ensures State() == KeepPremature(old(State()), loop)
    {
      if closed || ctx.Some? {
        return false;
      }
      if err.Some? {
        return false;
      }
      err := Some(Premature(loop));
      return true;
    }

    /** The first lock region of shutdown: close, and take the connections to drain. */
    method Close() returns (snapshot: seq<nat>)
      modifies `closed
      ensures snapshot == conns && State() == old(State()).(closed := true)
    {
      closed := true;
      snapshot := conns;
    }
  }

  // ---------------------------------------------------------------- the protocol

  /** A registered loop: running, past its function but not yet through the recovery defer,
      about to cancel the group with the failure it recorded, through the defer, and counted
      out of the wait group. */
  datatype Loop = Running | Ended(panicked: bool) | Cancelling(f: Failure) | Deferred | Exited

  /** Where the one execution of shutdown stands. */
  datatype Phase = Open | Closed | Joining | TimedOut | Draining | Finished

  datatype Sys = Sys(
    core: Core, loops: map<nat, Loop>,
    phase: Phase, snapshot: seq<nat>, joined: bool,
    begun: set<nat>, ended: set<nat>)

  const START := Sys(Core(false, [], None, None, 0), map[], Open, [], false, {}, {})

  datatype Event =
    | GoCall(loop: nat)
    | Return(loop: nat, panicked: bool)
    | Recover(loop: nat)
    | CancelWith(loop: nat)
    | Done(loop: nat)
    | AddConnCall(conn: nat)
    | ParentEnds
    | CloseGroup
    | CancelGroup
    | WaitReturns
    | JoinTimer
    | RecordTimeout
    | StartDrains
    | DrainBegins(index: nat)
    | DrainEnds(index: nat, failed: bool)
    | Finish

  predicate InPhase(s: Sys, loop: nat, l: Loop) { loop in s.loops && s.loops[loop] == l }

  predicate AllExited(s: Sys) { forall l :: l in s.loops ==> s.loops[l].Exited? }

  predicate Enabled(s: Sys, e: Event) {
    match e
    case GoCall(l) => l !in s.loops
    case Return(l, _) => InPhase(s, l, Running)
    case Recover(l) => l in s.loops && s.loops[l].Ended?
    case CancelWith(l) => l in s.loops && s.loops[l].Cancelling?
    case Done(l) => InPhase(s, l, Deferred)
    case AddConnCall(_) => true
    case ParentEnds => true
    case CloseGroup => s.phase.Open?
    case CancelGroup => s.phase.Closed?
    case WaitReturns => s.phase !in {Open, Closed} && s.core.wg == 0 && !s.joined
    case JoinTimer => s.phase.Joining? && !s.joined
    case RecordTimeout => s.phase.TimedOut?
    case StartDrains => s.phase.Joining? && s.joined
    case DrainBegins(i) => s.phase.Draining? && i < |s.snapshot| && i !in s.begun
    case DrainEnds(i, _) => i in s.begun && i !in s.ended && i < |s.snapshot|
    case Finish => s.phase.Draining? && forall i :: 0 <= i < |s.snapshot| ==> i in s.ended
  }

  /** A loop past its recovery defer: about to cancel if it recorded, done with it if not. */
  function AfterRecording(before: Core, after: Core): Loop {
    if before.err.None? && after.err.Some? then Cancelling(after.err.value) else Deferred
  }

  function Step(s: Sys, e: Event): Sys
    requires Enabled(s, e)
  {
    match e
    case GoCall(l) => s.(core := Register(s.core), loops := if s.core.closed then s.loops else s.loops[l := Running])
    case Return(l, panicked) => s.(loops := s.loops[l := Ended(panicked)])
    case Recover(l) =>
      var core := if s.loops[l].panicked then Keep(s.core, Panicked(l)) else KeepPremature(s.core, l);
      s.(core := core, loops := s.loops[l := AfterRecording(s.core, core)])
    case CancelWith(l) => s.(core := Cancel(s.core, Failed(s.loops[l].f)), loops := s.loops[l := Deferred])
    case Done(l) => s.(core := s.core.(wg := s.core.wg - 1), loops := s.loops[l := Exited])
    case AddConnCall(c) => s.(core := Accept(s.core, c))
    case ParentEnds => s.(core := Cancel(s.core, ParentDone))
    case CloseGroup => s.(core := s.core.(closed := true), snapshot := s.core.conns, phase := Closed)
    case CancelGroup => s.(core := Cancel(s.core, Cancelled), phase := Joining)
    case WaitReturns => s.(joined := true)
    case JoinTimer => s.(phase := TimedOut)
    case RecordTimeout => s.(core := Keep(s.core, JoinTimeout), phase := Draining)
    case StartDrains => s.(phase := Draining)
    case DrainBegins(i) => s.(begun := s.begun + {i})
    case DrainEnds(i, failed) =>
      s.(core := if failed then Keep(s.core, DrainFailed(s.snapshot[i])) else s.core, ended := s.ended + {i})
    case Finish => s.(phase := Finished)
  }

  ghost predicate Run(ss: seq<Sys>, es: seq<Event>) {
    && |ss| == |es| + 1 && ss[0] == START
    && forall i :: 0 <= i < |es| ==> Enabled(ss[i], es[i]) && ss[i + 1] == Step(ss[i], es[i])
  }

  /** Nothing in the protocol holds back its callers: Go, AddConn and the parent's end can come
      in any state, and a loop that has been started may return or panic in any state. */
  lemma CallersAreFree(s: Sys, l: nat, conn: nat, panicked: bool)
    ensures Enabled(s, AddConnCall(conn)) && Enabled(s, ParentEnds)
    ensures l !in s.loops ==>
      Enabled(s, GoCall(l)) && (Step(s, GoCall(l)).loops == if s.core.closed then s.loops else s.loops[l := Running])
    ensures l in s.loops && s.loops[l].Running? ==> Enabled(s, Return(l, panicked))
  {
  }

  // ---------------------------------------------------------------- invariant

  ghost function Unfinished(s: Sys): set<nat> {
    set l | l in s.loops && !s.loops[l].Exited?
  }

  ghost predicate Inv(s: Sys) {
    && (s.core.closed <==> !s.phase.Open?)
    && (s.phase !in {Open, Closed} ==> s.core.ctx.Some?)
    && (s.core.closed ==> s.snapshot == s.core.conns)
    && s.core.wg == |Unfinished(s)|
    && (s.joined ==> s.core.closed && AllExited(s))
    && (s.phase in {Draining, Finished} ==> s.core.err.Some? || AllExited(s))
    && s.ended <= s.begun && (s.begun != {} ==> s.phase in {Draining, Finished})
    && (forall i :: i in s.begun ==> i < |s.snapshot|)
    && (s.phase.Finished? ==> forall i :: 0 <= i < |s.snapshot| ==> i in s.ended)
    && (forall l :: l in s.loops && s.loops[l].Cancelling? ==> s.core.err == Some(s.loops[l].f))
    && (s.core.ctx.Some? && s.core.ctx.value.Failed? ==> s.core.err == Some(s.core.ctx.value.f))
  }

  lemma CountStays(s: Sys, s': Sys, l: nat)
    requires l in s.loops && s'.loops.Keys == s.loops.Keys
    requires forall k :: k in s.loops && k != l ==> s'.loops[k] == s.loops[k]
    ensures s'.loops[l].Exited? == s.loops[l].Exited? ==> Unfinished(s') == Unfinished(s)
    ensures s'.loops[l].Exited? && !s.loops[l].Exited? ==> |Unfinished(s')| == |Unfinished(s)| - 1
  {
    if s'.loops[l].Exited? && !s.loops[l].Exited? {
      assert Unfinished(s) == Unfinished(s') + {l};
    }
  }

  lemma WaitMeansExited(s: Sys)
    requires Inv(s) && s.core.wg == 0
    ensures AllExited(s)
  {
    forall l | l in s.loops ensures s.loops[l].Exited? {
      assert l !in Unfinished(s);
    }
  }

  lemma GoKeepsInv(s: Sys, e: Event)
    requires Inv(s) && Enabled(s, e) && e.GoCall?
    ensures Inv(Step(s, e))
  {
    if !s.core.closed {
      assert Unfinished(Step(s, e)) == Unfinished(s) + {e.loop};
    }
  }

  lemma RecoverKeepsInv(s: Sys, e: Event)
    requires Inv(s) && Enabled(s, e) && e.Recover?
    ensures Inv(Step(s, e))
  {
    CountStays(s, Step(s, e), e.loop);
  }

  lemma MoveKeepsInv(s: Sys, e: Event)
    requires Inv(s) && Enabled(s, e) && (e.Return? || e.CancelWith? || e.Done?)
    ensures Inv(Step(s, e))
  {
    CountStays(s, Step(s, e), e.loop);
  }

  lemma StepKeepsInv(s: Sys, e: Event)
    requires Inv(s) && Enabled(s, e)
    ensures Inv(Step(s, e))
  {
    match e
    case GoCall(_) => GoKeepsInv(s, e);
    case Recover(_) => RecoverKeepsInv(s, e);
    case Return(_, _) => MoveKeepsInv(s, e);
    case CancelWith(_) => MoveKeepsInv(s, e);
    case Done(_) => MoveKeepsInv(s, e);
    case WaitReturns => WaitMeansExited(s);
    case _ =>
  }

  lemma {:induction false} RunKeepsInv(ss: seq<Sys>, es: seq<Event>, i: nat)
    requires Run(ss, es) && i <= |es|
    ensures Inv(ss[i])
  {
    if i == 0 {
      assert Unfinished(START) == {};
    } else {
      RunKeepsInv(ss, es, i - 1);
      StepKeepsInv(ss[i - 1], es[i - 1]);
    }
  }

  // ---------------------------------------------------------------- no drain under a live loop

  /** What never changes again once the group has closed, however the rest interleaves. */
  ghost predicate ClosedStays(s: Sys, t: Sys) {
    s.core.closed ==>
      && t.core.closed && t.loops.Keys == s.loops.Keys && t.core.wg <= s.core.wg
      && t.core.conns == s.core.conns && t.snapshot == s.snapshot
      && (forall l :: l in s.loops && s.loops[l].Exited? ==> t.loops[l].Exited?)
  }

  lemma StepClosedStays(s: Sys, e: Event)
    requires Inv(s) && Enabled(s, e)
    ensures ClosedStays(s, Step(s, e))
    ensures s.core.err.Some? ==> Step(s, e).core.err == s.core.err
    ensures s.begun <= Step(s, e).begun
  {
  }

  /** After the group closes no loop registers, no connection is accepted, and the wait group
      is never added to, so no Add follows the wait. */
  lemma {:induction false} NothingRegistersAfterClose(ss: seq<Sys>, es: seq<Event>, i: nat, j: nat)
    requires Run(ss, es) && i <= j <= |es|
    ensures ClosedStays(ss[i], ss[j])
    ensures ss[i].core.err.Some? ==> ss[j].core.err == ss[i].core.err
    ensures ss[i].begun <= ss[j].begun
  {
    if i < j {
      NothingRegistersAfterClose(ss, es, i, j - 1);
      RunKeepsInv(ss, es, j - 1);
      StepClosedStays(ss[j - 1], es[j - 1]);
    }
  }

  ghost predicate ClosedBy(es: seq<Event>, j: nat)
    requires j <= |es|
  {
    exists k :: 0 <= k < j && es[k].CloseGroup?
  }

  /** The connections handed to AddConn before the group closed, in order. */
  ghost function ConnsBy(es: seq<Event>, j: nat): seq<nat>
    requires j <= |es|
  {
    if j == 0 then []
    else ConnsBy(es, j - 1) + if es[j - 1].AddConnCall? && !ClosedBy(es, j - 1) then [es[j - 1].conn] else []
  }

  /** The loops handed to Go before the group closed. */
  ghost function LoopsBy(es: seq<Event>, j: nat): set<nat>
    requires j <= |es|
  {
    if j == 0 then {}
    else LoopsBy(es, j - 1) + if es[j - 1].GoCall? && !ClosedBy(es, j - 1) then {es[j - 1].loop} else {}
  }

  /** And up to the close everything registers: over any run the group holds exactly the
      connections and the loops it was given before Shutdown closed it. */
  lemma {:induction false} RegistersUntilClose(ss: seq<Sys>, es: seq<Event>, j: nat)
    requires Run(ss, es) && j <= |es|
    ensures ss[j].core.closed <==> ClosedBy(es, j)
    ensures ss[j].core.conns == ConnsBy(es, j) && ss[j].loops.Keys == LoopsBy(es, j)
  {
    if j > 0 {
      RegistersUntilClose(ss, es, j - 1);
      assert ClosedBy(es, j) <==> ClosedBy(es, j - 1) || es[j - 1].CloseGroup?;
      RegisterStep(ss[j - 1], es[j - 1]);
    }
  }

  lemma RegisterStep(s: Sys, e: Event)
    requires Enabled(s, e)
    ensures var t := Step(s, e);
            && t.core.closed == (s.core.closed || e.CloseGroup?)
            && t.core.conns == s.core.conns + (if e.AddConnCall? && !s.core.closed then [e.conn] else [])
            && t.loops.Keys == s.loops.Keys + (if e.GoCall? && !s.core.closed then {e.loop} else {})
  {
  }

  /** When Shutdown has finished, the connections drained are exactly those AddConn was given
      before the close, each once; and if it reports no failure, every loop the group ever
      accepted had returned before the first drain began. */
  lemma ShutdownNeverDrainsUnderALiveLoop(ss: seq<Sys>, es: seq<Event>, i: nat, n: nat)
    requires Run(ss, es) && i <= n <= |es| && ss[n].phase.Finished?
    ensures ss[n].snapshot == ss[n].core.conns == ConnsBy(es, n)
    ensures forall k: nat :: (k in ss[n].begun <==> k < |ss[n].core.conns|) && (k in ss[n].ended <==> k in ss[n].begun)
    ensures ss[n].core.err.None? && ss[i].begun != {} ==>
      AllExited(ss[i]) && ss[i].loops.Keys == ss[n].loops.Keys
  {
    RunKeepsInv(ss, es, n);
    RunKeepsInv(ss, es, i);
    RegistersUntilClose(ss, es, n);
    NothingRegistersAfterClose(ss, es, i, n);
  }

  // ---------------------------------------------------------------- the first failure

  /** The stored failure is written at most once over any run, and a failure that becomes the
      context's cause is that stored failure. */
  lemma FirstFailureWins(ss: seq<Sys>, es: seq<Event>, i: nat, j: nat)
    requires Run(ss, es) && i <= j <= |es|
    ensures ss[i].core.err.Some? ==> ss[j].core.err == ss[i].core.err
    ensures ss[j].core.ctx.Some? && ss[j].core.ctx.value.Failed? ==> ss[j].core.err == Some(ss[j].core.ctx.value.f)
  {
    NothingRegistersAfterClose(ss, es, i, j);
    RunKeepsInv(ss, es, j);
  }

  /** What an event reports as a failure: a panic, a return while the group is open and its
      context live, an expired join window, a failed drain. */
  ghost function Reported(s: Sys, e: Event): Option<Failure> {
    match e
    case Recover(l) =>
      if l !in s.loops then None
      else if s.loops[l] == Ended(true) then Some(Panicked(l))
      else if !s.core.closed && s.core.ctx.None? then Some(Premature(l))
      else None
    case RecordTimeout => Some(JoinTimeout)
    case DrainEnds(i, true) => if i < |s.snapshot| then Some(DrainFailed(s.snapshot[i])) else None
    case _ => None
  }

  ghost predicate QuietUntil(ss: seq<Sys>, es: seq<Event>, j: nat)
    requires |ss| == |es| + 1 && j <= |es|
  {
    forall k :: 0 <= k < j ==> Reported(ss[k], es[k]).None?
  }

  lemma ReportStep(s: Sys, e: Event)
    requires Enabled(s, e)
    ensures Step(s, e).core.err == if s.core.err.None? then Reported(s, e) else s.core.err
  {
  }

  lemma {:induction false} NilWhileQuiet(ss: seq<Sys>, es: seq<Event>, j: nat)
    requires Run(ss, es) && j <= |es|
    ensures ss[j].core.err.None? <==> QuietUntil(ss, es, j)
  {
    if j > 0 {
      NilWhileQuiet(ss, es, j - 1);
      ReportStep(ss[j - 1], es[j - 1]);
      assert QuietUntil(ss, es, j) <==> QuietUntil(ss, es, j - 1) && Reported(ss[j - 1], es[j - 1]).None?;
    }
  }

  lemma {:induction false} ErrStays(ss: seq<Sys>, es: seq<Event>, i: nat, j: nat)
    requires Run(ss, es) && i <= j <= |es| && ss[i].core.err.Some?
    ensures ss[j].core.err == ss[i].core.err
  {
    if i < j {
      ErrStays(ss, es, i, j - 1);
      ReportStep(ss[j - 1], es[j - 1]);
    }
  }

  /** No failure is overlooked: Err is nil exactly while nothing has been reported, and from
      then on it is the first failure that was, whichever kind it is. */
  lemma ErrIsTheFirstReport(ss: seq<Sys>, es: seq<Event>, k: nat, j: nat)
    requires Run(ss, es) && k < j <= |es|
    ensures ss[j].core.err.None? <==> QuietUntil(ss, es, j)
    ensures QuietUntil(ss, es, k) && Reported(ss[k], es[k]).Some? ==> ss[j].core.err == Reported(ss[k], es[k])
  {
    NilWhileQuiet(ss, es, j);
    NilWhileQuiet(ss, es, k);
    ReportStep(ss[k], es[k]);
    if ss[k + 1].core.err.Some? {
      ErrStays(ss, es, k + 1, j);
    }
  }

  function StagesLeft(l: Loop): nat {
    match l
    case Running => 4
    case Ended(_) => 3
    case Cancelling(_) => 2
    case Deferred => 1
    case Exited => 0
  }

  predicate LoopStep(e: Event) { e.Return? || e.Recover? || e.CancelWith? || e.Done? }

  /** A registered loop only ever moves on, by its own steps alone, and how its function ended
      is not forgotten before the defer sees it. */
  lemma LoopAdvances(s: Sys, e: Event, l: nat)
    requires Enabled(s, e) && l in s.loops
    ensures l in Step(s, e).loops
    ensures LoopStep(e) && e.loop == l ==> StagesLeft(Step(s, e).loops[l]) < StagesLeft(s.loops[l])
    ensures !(LoopStep(e) && e.loop == l) ==> Step(s, e).loops[l] == s.loops[l]
    ensures e.Return? && e.loop == l ==> Step(s, e).loops[l] == Ended(e.panicked)
  {
  }

  lemma {:induction false} EndingIsRemembered(ss: seq<Sys>, es: seq<Event>, k: nat, j: nat)
    requires Run(ss, es) && k < j <= |es| && es[k].Return?
    ensures es[k].loop in ss[j].loops
    ensures var l := ss[j].loops[es[k].loop]; l == Ended(es[k].panicked) || StagesLeft(l) < 3
  {
    if k < j - 1 {
      EndingIsRemembered(ss, es, k, j - 1);
    }
    LoopAdvances(ss[j - 1], es[j - 1], es[k].loop);
  }

  /** A loop that panicked, or returned while the group was open and live, is a failure of the
      group by the time it has passed its defer; the first one is named by Err and, before the
      loop is counted out, has cancelled the context its siblings run on. */
  lemma FailedLoopFailsTheGroup(ss: seq<Sys>, es: seq<Event>, k: nat, i: nat, j: nat)
    requires Run(ss, es) && k < i < j <= |es| && es[k].Return? && es[i] == Recover(es[k].loop)
    requires es[k].panicked || (!ss[i].core.closed && ss[i].core.ctx.None?)
    ensures ss[j].core.err.Some?
    ensures ss[i].core.err.None? ==>
      && ss[j].core.err == Some(if es[k].panicked then Panicked(es[k].loop) else Premature(es[k].loop))
      && es[k].loop in ss[j].loops
      && (ss[j].loops[es[k].loop] == Cancelling(ss[j].core.err.value) || ss[j].core.ctx.Some?)
  {
    EndingIsRemembered(ss, es, k, i);
    ReportStep(ss[i], es[i]);
    NothingRegistersAfterClose(ss, es, i + 1, j);
    if ss[i].core.err.None? {
      CancelsBeforeLeaving(ss, es, i + 1, j, es[k].loop);
    }
  }

  lemma {:induction false} CancelsBeforeLeaving(ss: seq<Sys>, es: seq<Event>, i: nat, j: nat, l: nat)
    requires Run(ss, es) && i <= j <= |es| && l in ss[i].loops && ss[i].loops[l].Cancelling?
    ensures l in ss[j].loops && (ss[j].loops[l] == ss[i].loops[l] || ss[j].core.ctx.Some?)
  {
    if i < j {
      CancelsBeforeLeaving(ss, es, i, j - 1, l);
      LoopAdvances(ss[j - 1], es[j - 1], l);
      ContextStep(ss[j - 1], es[j - 1]);
    }
  }

  // ---------------------------------------------------------------- the context

  /** The three ways the group's context ends: a failed loop, the parent, Shutdown. */
  predicate Cancels(e: Event) { e.CancelWith? || e.ParentEnds? || e.CancelGroup? }

  ghost predicate LiveUntil(es: seq<Event>, j: nat)
    requires j <= |es|
  {
    forall k :: 0 <= k < j ==> !Cancels(es[k])
  }

  lemma ContextStep(s: Sys, e: Event)
    requires Enabled(s, e)
    ensures s.core.ctx.Some? ==> Step(s, e).core.ctx == s.core.ctx
    ensures s.core.ctx.None? ==> (Step(s, e).core.ctx.Some? <==> Cancels(e))
    ensures s.core.ctx.None? && e.CancelGroup? ==> Step(s, e).core.ctx == Some(Cancelled)
    ensures s.core.ctx.None? && e.ParentEnds? ==> Step(s, e).core.ctx == Some(ParentDone)
    ensures s.core.ctx.None? && e.CancelWith? ==> Step(s, e).core.ctx == Some(Failed(s.loops[e.loop].f))
  {
  }

  lemma RunContextStep(ss: seq<Sys>, es: seq<Event>, i: nat)
    requires Run(ss, es) && i < |es|
    ensures ss[i].core.ctx.Some? ==> ss[i + 1].core.ctx == ss[i].core.ctx
    ensures ss[i].core.ctx.None? ==> (ss[i + 1].core.ctx.Some? <==> Cancels(es[i]))
  {
    ContextStep(ss[i], es[i]);
  }

  lemma {:induction false} LiveUntilCancelled(ss: seq<Sys>, es: seq<Event>, j: nat)
    requires Run(ss, es) && j <= |es|
    ensures ss[j].core.ctx.None? <==> LiveUntil(es, j)
  {
    if j > 0 {
      LiveUntilCancelled(ss, es, j - 1);
      RunContextStep(ss, es, j - 1);
      assert LiveUntil(es, j) <==> LiveUntil(es, j - 1) && !Cancels(es[j - 1]);
    }
  }

  lemma {:induction false} CauseStays(ss: seq<Sys>, es: seq<Event>, i: nat, j: nat)
    requires Run(ss, es) && i <= j <= |es| && ss[i].core.ctx.Some?
    ensures ss[j].core.ctx == ss[i].core.ctx
  {
    if i < j {
      CauseStays(ss, es, i, j - 1);
      RunContextStep(ss, es, j - 1);
    }
  }

  lemma PhaseHasContext(ss: seq<Sys>, es: seq<Event>, j: nat)
    requires Run(ss, es) && j <= |es|
    ensures ss[j].phase !in {Open, Closed} ==> ss[j].core.ctx.Some?
  {
    RunKeepsInv(ss, es, j);
  }

  /** The group's context is really cancelled: it is live exactly until the first failed loop,
      the parent or Shutdown ends it, and the cause that set it is never replaced. */
  lemma ContextEndsAtTheFirstCancel(ss: seq<Sys>, es: seq<Event>, i: nat, j: nat)
    requires Run(ss, es) && i <= j <= |es|
    ensures ss[j].core.ctx.None? <==> LiveUntil(es, j)
    ensures ss[i].core.ctx.Some? ==> ss[j].core.ctx == ss[i].core.ctx
    ensures ss[j].phase !in {Open, Closed} ==> ss[j].core.ctx.Some?
  {
    LiveUntilCancelled(ss, es, j);
    PhaseHasContext(ss, es, j);
    if ss[i].core.ctx.Some? {
      CauseStays(ss, es, i, j);
    }
  }

  /** And that cause is the first canceller's: plain cancellation by Shutdown, the parent, or
      the failure Err names. */
  lemma FirstCancelGivesTheCause(ss: seq<Sys>, es: seq<Event>, i: nat, j: nat)
    requires Run(ss, es) && i < j <= |es| && LiveUntil(es, i) && Cancels(es[i])
    ensures es[i].CancelGroup? ==> ss[j].core.ctx == Some(Cancelled)
    ensures es[i].ParentEnds? ==> ss[j].core.ctx == Some(ParentDone)
    ensures es[i].CancelWith? ==> ss[i].core.err.Some? && ss[j].core.ctx == Some(Failed(ss[i].core.err.value))
  {
    LiveUntilCancelled(ss, es, i);
    ContextStep(ss[i], es[i]);
    CauseStays(ss, es, i + 1, j);
    if es[i].CancelWith? {
      CancellingHasErr(ss, es, i);
    }
  }

  lemma CancellingHasErr(ss: seq<Sys>, es: seq<Event>, i: nat)
    requires Run(ss, es) && i < |es| && es[i].CancelWith?
    ensures es[i].loop in ss[i].loops && ss[i].loops[es[i].loop].Cancelling?
    ensures ss[i].core.err == Some(ss[i].loops[es[i].loop].f)
  {
    RunKeepsInv(ss, es, i);
  }

  /** A return is recorded as premature only while the group is open and its context live. */
  lemma PrematureOnlyWhileLive(ss: seq<Sys>, es: seq<Event>, i: nat, loop: nat)
    requires Run(ss, es) && i < |es|
    requires ss[i].core.err.None? && ss[i + 1].core.err == Some(Premature(loop))
    ensures es[i] == Recover(loop) && !ss[i].core.closed && ss[i].core.ctx.None?
  {
  }

  lemma FinishedIsStable(s: Sys, e: Event)
    requires Inv(s) && Enabled(s, e) && s.phase.Finished?
    ensures Step(s, e).phase.Finished? && Step(s, e).core.err == s.core.err
  {
  }

  /** Once Shutdown has returned, Err never changes, whatever loops are still doing. */
  lemma {:induction false} ErrIsStableAfterShutdown(ss: seq<Sys>, es: seq<Event>, i: nat, j: nat)
    requires Run(ss, es) && i <= j <= |es| && ss[i].phase.Finished?
    ensures ss[j].phase.Finished? && ss[j].core.err == ss[i].core.err
  {
    if i < j {
      ErrIsStableAfterShutdown(ss, es, i, j - 1);
      RunKeepsInv(ss, es, j - 1);
      FinishedIsStable(ss[j - 1], es[j - 1]);
    }
  }

  // ---------------------------------------------------------------- Shutdown comes to an end

  /** A step the execution of shutdown takes. */
  predicate ShutdownStep(e: Event) {
    match e
    case CloseGroup => true
    case CancelGroup => true
    case JoinTimer => true
    case RecordTimeout => true
    case StartDrains => true
    case DrainBegins(_) => true
    case DrainEnds(_, _) => true
    case Finish => true
    case _ => false
  }

  /** Shutdown is never stuck: until it has finished one of its own steps can be taken, a
      stubborn loop notwithstanding. And it joins as soon as it can: once every loop has
      exited, the wait returns. */
  lemma ShutdownIsNeverStuck(ss: seq<Sys>, es: seq<Event>, j: nat) returns (e: Event)
    requires Run(ss, es) && j <= |es| && !ss[j].phase.Finished?
    ensures ShutdownStep(e) && Enabled(ss[j], e)
    ensures ss[j].phase.Joining? && AllExited(ss[j]) && !ss[j].joined ==> Enabled(ss[j], WaitReturns)
  {
    RunKeepsInv(ss, es, j);
    var s := ss[j];
    if AllExited(s) {
      assert Unfinished(s) == {};
    }
    match s.phase
    case Open => e := CloseGroup;
    case Closed => e := CancelGroup;
    case Joining => e := if s.joined then StartDrains else JoinTimer;
    case TimedOut => e := RecordTimeout;
    case Finished => assert false;
    case Draining =>
      if i :| 0 <= i < |s.snapshot| && i !in s.ended {
        e := if i in s.begun then DrainEnds(i, false) else DrainBegins(i);
      } else {
        e := Finish;
      }
  }

  /** A join that completes is never reported as late: once the wait has returned the drains can
      start and the timer can no longer win. */
  lemma {:induction false} CompletionIsPreferred(ss: seq<Sys>, es: seq<Event>, i: nat, j: nat)
    requires Run(ss, es) && i < j <= |es| && es[i].WaitReturns?
    ensures ss[j].joined
    ensures ss[j].phase.Joining? ==> Enabled(ss[j], StartDrains) && !Enabled(ss[j], JoinTimer)
  {
    if i < j - 1 {
      CompletionIsPreferred(ss, es, i, j - 1);
    }
    JoinedStep(ss[j - 1], es[j - 1]);
  }

  lemma JoinedStep(s: Sys, e: Event)
    requires Enabled(s, e)
    ensures Step(s, e).joined == (s.joined || e.WaitReturns?)
  {
  }

  /** Every loop that has not exited can take its next step. */
  lemma LoopIsNeverStuck(s: Sys, l: nat) returns (e: Event)
    requires l in s.loops && !s.loops[l].Exited?
    ensures LoopStep(e) && e.loop == l && Enabled(s, e)
  {
    match s.loops[l]
    case Running => e := Return(l, false);
    case Ended(_) => e := Recover(l);
    case Cancelling(_) => e := CancelWith(l);
    case Deferred => e := Done(l);
  }

  function PhasesLeft(p: Phase): nat {
    match p
    case Open => 5
    case Closed => 4
    case Joining => 3
    case TimedOut => 2
    case Draining => 1
    case Finished => 0
  }

  function ShutdownStepsLeft(s: Sys): int {
    PhasesLeft(s.phase) + (|s.snapshot| - |s.begun|) + (|s.snapshot| - |s.ended|)
  }

  lemma ShutdownStepCounts(s: Sys, e: Event)
    requires Enabled(s, e) && s.core.closed && !s.phase.Open?
    ensures Step(s, e).core.closed
    ensures ShutdownStepsLeft(Step(s, e)) + (if ShutdownStep(e) then 1 else 0) <= ShutdownStepsLeft(s)
  {
    if e.DrainBegins? || e.DrainEnds? {
      DrainStepCounts(s, e);
    }
  }

  lemma DrainStepCounts(s: Sys, e: Event)
    requires Enabled(s, e) && (e.DrainBegins? || e.DrainEnds?)
    ensures ShutdownStepsLeft(Step(s, e)) + 1 == ShutdownStepsLeft(s)
  {
    if e.DrainBegins? {
      assert |s.begun + {e.index}| == |s.begun| + 1;
    } else {
      assert |s.ended + {e.index}| == |s.ended| + 1;
    }
  }

  lemma {:induction false} BelowCardinality(a: set<nat>, n: nat)
    requires forall i :: i in a ==> i < n
    ensures |a| <= n
  {
    if n > 0 {
      BelowCardinality(a - {n - 1}, n - 1);
      assert |a| <= |a - {n - 1}| + 1;
    } else {
      assert a == {};
    }
  }

  lemma ShutdownStepsLeftBounds(s: Sys)
    requires Inv(s) && s.core.closed
    ensures 0 <= ShutdownStepsLeft(s) <= 4 + 2 * |s.snapshot|
  {
    BelowCardinality(s.begun, |s.snapshot|);
    BelowCardinality(s.ended, |s.snapshot|);
  }

  ghost function ShutdownSteps(es: seq<Event>, a: nat, b: nat): nat
    requires a <= b <= |es|
  {
    if a == b then 0 else ShutdownSteps(es, a, b - 1) + if ShutdownStep(es[b - 1]) then 1 else 0
  }

  lemma ClosedMeansNotOpen(ss: seq<Sys>, es: seq<Event>, i: nat)
    requires Run(ss, es) && i <= |es|
    ensures ss[i].core.closed <==> !ss[i].phase.Open?
  {
    RunKeepsInv(ss, es, i);
  }

  /** And once the group has closed, shutdown takes at most four steps and two per connection,
      whatever loops, callers and the parent do meanwhile. */
  lemma {:induction false} ShutdownStepsAreBounded(ss: seq<Sys>, es: seq<Event>, a: nat, b: nat)
    requires Run(ss, es) && a <= b <= |es| && ss[a].core.closed
    ensures ss[b].core.closed
    ensures ShutdownSteps(es, a, b) + ShutdownStepsLeft(ss[b]) <= ShutdownStepsLeft(ss[a])
    ensures ShutdownSteps(es, a, b) <= 4 + 2 * |ss[a].snapshot|
  {
    if a < b {
      ShutdownStepsAreBounded(ss, es, a, b - 1);
      ClosedMeansNotOpen(ss, es, b - 1);
      ShutdownStepCounts(ss[b - 1], es[b - 1]);
    }
    RunKeepsInv(ss, es, a);
    RunKeepsInv(ss, es, b);
    ShutdownStepsLeftBounds(ss[a]);
    ShutdownStepsLeftBounds(ss[b]);
  }
}
