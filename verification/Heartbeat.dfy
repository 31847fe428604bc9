/** natsmsg.KeepInProgress: the capped heartbeat that holds a delivery's lease, and its stop. */
module Heartbeat {
  import opened Basics

  const MAX_TICKS: nat := 15

  /** What an InProgress call answers; only a permanent failure ends the heartbeat. */
  datatype Answer = Extended | Transient | Permanent

  /** The ticker goroutine's loop, from its first tick to the tick at which it is told to stop:
      the calls it makes are the answers up to the first permanent one, and never more than
      fifteen. answers[k] is what call k would be answered. */
  method TickLoop(answers: seq<Answer>, stopAfter: nat) returns (made: seq<Answer>)
    requires |answers| >= MAX_TICKS
    ensures made <= answers && |made| <= stopAfter && |made| <= 15
    ensures forall k :: 0 <= k < |made| - 1 ==> !made[k].Permanent?
    ensures |made| < stopAfter && |made| < 15 ==> made != [] && made[|made| - 1].Permanent?
  {
    made := [];
    var ticks := 0;
    while ticks < stopAfter
      invariant 0 <= ticks <= stopAfter && ticks == |made| <= MAX_TICKS
      invariant made == answers[..ticks]
      invariant forall k :: 0 <= k < |made| ==> !made[k].Permanent?
    {
      ticks := ticks + 1;
      if ticks > MAX_TICKS {
        return;
      }
      made := made + [answers[ticks - 1]];
      if answers[ticks - 1].Permanent? {
        return;
      }
    }
  }

  // ---------------------------------------------------------------- the lease

  /** Tick k (counting from zero) is served no earlier than its time and at most jitter late. */
  ghost predicate OnTime(at: seq<int>, interval: int, jitter: int) {
    0 <= jitter < interval
    && forall k :: 0 <= k < |at| ==> (k + 1) * interval <= at[k] <= (k + 1) * interval + jitter
  }

  /** When the broker's lease runs out, after the first k calls: AckWait from the delivery, or
      from the last call that succeeded. */
  ghost function Expiry(at: seq<int>, made: seq<Answer>, ackWait: int, k: nat): int
    requires k <= |made| <= |at|
  {
    if k == 0 then ackWait
    else if made[k - 1].Extended? then at[k - 1] + ackWait
    else Expiry(at, made, ackWait, k - 1)
  }

  /** No two consecutive calls fail. */
  ghost predicate NoTwoDropped(made: seq<Answer>) {
    forall k :: 1 <= k < |made| ==> made[k - 1].Extended? || made[k].Extended?
  }

  lemma Spread(k: int, i: int)
    ensures (k + 2) * i == k * i + i + i && (k + 1) * i == k * i + i && (k - 1) * i == k * i - i
  {
  }

  /** One dropped extension between successes never lets the lease lapse: at every tick, even
      one late by anything short of an interval, the lease is still held. */
  lemma LeaseHolds(at: seq<int>, made: seq<Answer>, ackWait: int, jitter: int, k: nat)
    requires |made| <= |at| && k < |made| && OnTime(at, ackWait / 3, jitter) && NoTwoDropped(made)
    ensures at[k] < Expiry(at, made, ackWait, k)
  {
    var i := ackWait / 3;
    Spread(k, i);
    if k >= 2 && !made[k - 1].Extended? {
      assert made[k - 2].Extended?;
      Spread(k - 2, i);
      assert at[k - 2] >= (k - 2 + 1) * i;
    } else if k >= 1 && made[k - 1].Extended? {
      assert at[k - 1] >= (k - 1 + 1) * i;
    }
  }

  /** And then it gives up: after any calls the heartbeat can make, a wedged handler's lease
      ends within six AckWaits (and the lateness of the last tick). */
  lemma {:induction false} LeaseEnds(at: seq<int>, made: seq<Answer>, ackWait: int, jitter: int, k: nat)
    requires k <= |made| <= |at| && |made| <= 15 && OnTime(at, ackWait / 3, jitter)
    ensures Expiry(at, made, ackWait, k) <= 6 * ackWait + jitter
  {
    var i := ackWait / 3;
    if k > 0 {
      LeaseEnds(at, made, ackWait, jitter, k - 1);
      if made[k - 1].Extended? {
        assert at[k - 1] <= (k - 1 + 1) * i + jitter;
        AtMostFifteen(k, i);
      }
    }
  }

  lemma AtMostFifteen(k: nat, i: int)
    requires k <= 15 && i >= 0
    ensures k * i <= 15 * i
  {
  }

  /** Two drops in a row are too many, even on time: the next tick meets an expired lease. */
  lemma TwoDropsCanLapse()
    ensures var at, made := [1, 2, 3, 4], [Extended, Transient, Transient, Extended];
            OnTime(at, 3 / 3, 0) && !NoTwoDropped(made) && at[3] >= Expiry(at, made, 3, 3)
  {
    var at, made := [1, 2, 3, 4], [Extended, Transient, Transient, Extended];
    assert Expiry(at, made, 3, 1) == 4;
    assert !made[1].Extended? && !made[2].Extended?;
  }

  // ---------------------------------------------------------------- stop

  /** The goroutine is in its select, inside an InProgress call, or gone. */
  datatype Phase = Waiting | Calling | Exited

  datatype Stopper = Closing | Returned

  datatype Sys = Sys(ticks: nat, calls: nat, phase: Phase, done: bool, stoppers: map<nat, Stopper>)

  const START := Sys(0, 0, Waiting, false, map[])

  datatype Event = Tick | Answered(a: Answer) | SeesDone | StopCalled(id: nat) | StopReturns(id: nat)

  /** A tick may win the select even when done is already closed. */
  predicate Enabled(s: Sys, e: Event) {
    match e
    case Tick => s.phase.Waiting?
    case Answered(_) => s.phase.Calling?
    case SeesDone => s.phase.Waiting? && s.done
    case StopCalled(id) => id !in s.stoppers
    case StopReturns(id) => id in s.stoppers && s.stoppers[id].Closing? && s.phase.Exited?
  }

  function Step(s: Sys, e: Event): Sys
    requires Enabled(s, e)
  {
    match e
    case Tick =>
      if s.ticks + 1 > MAX_TICKS then s.(ticks := s.ticks + 1, phase := Exited)
      else s.(ticks := s.ticks + 1, calls := s.calls + 1, phase := Calling)
    case Answered(a) => s.(phase := if a.Permanent? then Exited else Waiting)
    case SeesDone => s.(phase := Exited)
    case StopCalled(id) => s.(done := true, stoppers := s.stoppers[id := Closing])
    case StopReturns(id) => s.(stoppers := s.stoppers[id := Returned])
  }

  ghost predicate Run(ss: seq<Sys>, es: seq<Event>) {
    && |ss| == |es| + 1 && ss[0] == START
    && forall i :: 0 <= i < |es| ==> Enabled(ss[i], es[i]) && ss[i + 1] == Step(ss[i], es[i])
  }

  ghost predicate Inv(s: Sys) {
    && s.calls == (if s.ticks <= 15 then s.ticks else 15)
    && (!s.phase.Exited? ==> s.calls == s.ticks)
    && forall id :: id in s.stoppers && s.stoppers[id].Returned? ==> s.phase.Exited?
  }

  lemma {:induction false} RunKeepsInv(ss: seq<Sys>, es: seq<Event>, i: nat)
    requires Run(ss, es) && i <= |es|
    ensures Inv(ss[i])
  {
    if i > 0 {
      RunKeepsInv(ss, es, i - 1);
    }
  }

  /** A goroutine that has gone makes no more calls: after the cap, after a permanent failure
      and after seeing done alike. */
  lemma {:induction false} GoneIsGone(ss: seq<Sys>, es: seq<Event>, i: nat, j: nat)
    requires Run(ss, es) && i <= j <= |es| && ss[i].phase.Exited?
    ensures ss[j].phase.Exited? && ss[j].calls == ss[i].calls
  {
    if i < j {
      GoneIsGone(ss, es, i, j - 1);
    }
  }

  /** In every interleaving at most fifteen calls are made, and once any stop has returned
      none is in flight and none ever starts; nor does any follow a permanent failure. */
  lemma NoCallAfterStop(ss: seq<Sys>, es: seq<Event>, i: nat, j: nat)
    requires Run(ss, es) && i <= j <= |es|
    ensures ss[j].calls <= 15
    ensures (exists id :: id in ss[i].stoppers && ss[i].stoppers[id].Returned?) ==>
      !ss[j].phase.Calling? && ss[j].calls == ss[i].calls
    ensures i < j && es[i] == Answered(Permanent) ==> !ss[j].phase.Calling? && ss[j].calls == ss[i].calls
  {
    RunKeepsInv(ss, es, i);
    RunKeepsInv(ss, es, j);
    if ss[i].phase.Exited? {
      GoneIsGone(ss, es, i, j);
    }
    if i < j && es[i] == Answered(Permanent) {
      GoneIsGone(ss, es, i + 1, j);
    }
  }

  // ---------------------------------------------------------------- and it keeps going

  ghost predicate Saw(es: seq<Event>, j: nat, e: Event)
    requires j <= |es|
  {
    exists k :: 0 <= k < j && es[k] == e
  }

  function Ticks(es: seq<Event>, j: nat): nat
    requires j <= |es|
  {
    if j == 0 then 0 else Ticks(es, j - 1) + if es[j - 1].Tick? then 1 else 0
  }

  lemma SawStep(es: seq<Event>, j: nat, e: Event)
    requires 0 < j <= |es|
    ensures Saw(es, j, e) <==> Saw(es, j - 1, e) || es[j - 1] == e
  {
  }

  lemma HeartbeatStep(s: Sys, e: Event)
    requires Enabled(s, e) && Inv(s)
    ensures var t := Step(s, e);
            && t.ticks == s.ticks + (if e.Tick? then 1 else 0)
            && t.calls == (if t.ticks <= 15 then t.ticks else 15)
            && (t.phase.Exited? <==> s.phase.Exited? || e == Answered(Permanent) || e.SeesDone? || (e.Tick? && s.ticks >= 15))
            && (t.phase.Calling? <==> (e.Tick? && s.ticks < 15) || (s.phase.Calling? && !e.Answered?))
            && t.done == (s.done || e.StopCalled?)
  {
  }

  /** A tick, an answer and a stop can come whenever the goroutine, the call or the caller is
      there for it. */
  lemma OthersAreFree(s: Sys, a: Answer, id: nat)
    ensures Enabled(s, Tick) <==> s.phase.Waiting?
    ensures Enabled(s, Answered(a)) <==> s.phase.Calling?
    ensures id !in s.stoppers ==> Enabled(s, StopCalled(id))
  {
  }

  /** Every tick up to the fifteenth is a call, and the heartbeat gives up for three reasons and
      no other: a permanent failure, the cap, or seeing that it has been told to stop. A
      transient failure is none of them: the next tick can come. */
  lemma {:induction false} KeepsTickingUntil(ss: seq<Sys>, es: seq<Event>, j: nat)
    requires Run(ss, es) && j <= |es|
    ensures ss[j].calls == (if Ticks(es, j) <= 15 then Ticks(es, j) else 15)
    ensures ss[j].phase.Exited? <==> Saw(es, j, Answered(Permanent)) || Saw(es, j, SeesDone) || Ticks(es, j) > 15
    ensures Saw(es, j, SeesDone) ==> StopAsked(es, j)
    ensures j > 0 && (es[j - 1] == Answered(Transient) || es[j - 1] == Answered(Extended)) ==> Enabled(ss[j], Tick)
  {
    TicksAreCounted(ss, es, j);
    if j > 0 {
      KeepsTickingUntil(ss, es, j - 1);
      TicksAreCounted(ss, es, j - 1);
      RunKeepsInv(ss, es, j - 1);
      HeartbeatStep(ss[j - 1], es[j - 1]);
      DoneWhenAsked(ss, es, j - 1);
      SawStep(es, j, Answered(Permanent));
      SawStep(es, j, SeesDone);
    }
  }

  ghost predicate StopAsked(es: seq<Event>, j: nat)
    requires j <= |es|
  {
    exists k :: 0 <= k < j && es[k].StopCalled?
  }

  lemma {:induction false} DoneWhenAsked(ss: seq<Sys>, es: seq<Event>, j: nat)
    requires Run(ss, es) && j <= |es|
    ensures ss[j].done <==> StopAsked(es, j)
  {
    if j > 0 {
      DoneWhenAsked(ss, es, j - 1);
      RunKeepsInv(ss, es, j - 1);
      HeartbeatStep(ss[j - 1], es[j - 1]);
      assert StopAsked(es, j) <==> StopAsked(es, j - 1) || es[j - 1].StopCalled?;
    }
  }

  lemma {:induction false} TicksAreCounted(ss: seq<Sys>, es: seq<Event>, j: nat)
    requires Run(ss, es) && j <= |es|
    ensures ss[j].ticks == Ticks(es, j)
  {
    if j > 0 {
      TicksAreCounted(ss, es, j - 1);
      RunKeepsInv(ss, es, j - 1);
      HeartbeatStep(ss[j - 1], es[j - 1]);
    }
  }

  /** A stop is never stuck: until it has returned, either the goroutine has gone and it can,
      or the goroutine can see it, or one call is in flight and can be answered. */
  lemma {:induction false} StopIsNeverStuck(ss: seq<Sys>, es: seq<Event>, k: nat, j: nat) returns (e: Event)
    requires Run(ss, es) && k < j <= |es| && es[k].StopCalled?
    ensures var id := es[k].id;
            && id in ss[j].stoppers && ss[j].done
            && (ss[j].stoppers[id].Closing? ==> Enabled(ss[j], e) && (e == StopReturns(id) || e.SeesDone? || e.Answered?))
  {
    if k < j - 1 {
      e := StopIsNeverStuck(ss, es, k, j - 1);
    }
    e := match ss[j].phase
      case Exited => StopReturns(es[k].id)
      case Waiting => SeesDone
      case Calling => Answered(Extended);
  }
}
