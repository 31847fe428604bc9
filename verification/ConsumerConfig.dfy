/** jsconsumer's Config: what validate and checkAgainstStream accept, and what that promises
    about real deliveries on the broker's clock. */
module ConsumerConfig {
  import opened Basics
  import S = Schedules
  import F = Floor
  import R = RetryCore
  import B = BrokerRuns
  import H = BreakerRuns

  const DEFAULT_ACK_WAIT: int := 30 * F.SECOND
  const DEFAULT_MAX_DELIVER: int := 8

  /** Strings are reduced to whether they are set; monitors are named by identity. */
  datatype Consumer = Consumer(
    stream: bool, durable: bool, callback: bool, connection: bool,
    filterSubject: bool, filterSubjects: seq<bool>,
    ackWait: Int64, maxDeliver: Int64, backOff: seq<Int64>,
    inactiveThreshold: Int64, maxAckPending: Int64,
    keepInProgress: bool, maxMessages: Int64, drainWindow: Int64,
    floorMonitor: Option<nat>, retryMonitor: Option<nat>,
    retry: Option<R.Config>)

  function EffectiveAckWait(c: Consumer): Int64 {
    if c.ackWait == 0 then DEFAULT_ACK_WAIT else c.ackWait
  }

  function EffectiveMaxDeliver(c: Consumer): Int64 {
    if c.maxDeliver == 0 then DEFAULT_MAX_DELIVER else c.maxDeliver
  }

  /** The consumer's retry timing as plain values; retention is filled in later. */
  function ScheduleOf(c: Consumer, streamMaxAge: Int64): S.Schedule {
    var bare := S.Schedule(0, 0.0, 0, c.backOff, Max(EffectiveMaxDeliver(c), 0), EffectiveAckWait(c), 0, 0, 0, 0, streamMaxAge);
    match c.retry
    case None => bare
    case Some(r) => bare.(captureReserve := r.captureReserve, maxTimeToDeadLetter := r.maxTimeToDeadLetter,
                          recoverBy := r.recoverBy, floorAge := if r.monitorAge.Some? then r.monitorAge.value else 0)
  }

  // ---------------------------------------------------------------- validate

  datatype Fault =
    | PrefetchTooLarge | StreamMissing | DurableMissing | CallbackMissing | TwoFilters | FilterEmpty
    | AckWaitNegative | MaxDeliverInvalid | MaxMessagesNegative | MaxAckPendingInvalid
    | InactiveThresholdNegative | DrainWindowNegative | MonitorConflict | MaxDeliverMismatch
    | ScheduleIncoherent | ConnectionMissing

  function Order(f: Fault): nat {
    match f
    case PrefetchTooLarge => 0
    case StreamMissing => 1
    case DurableMissing => 2
    case CallbackMissing => 3
    case TwoFilters => 4
    case FilterEmpty => 5
    case AckWaitNegative => 6
    case MaxDeliverInvalid => 7
    case MaxMessagesNegative => 8
    case MaxAckPendingInvalid => 9
    case InactiveThresholdNegative => 10
    case DrainWindowNegative => 11
    case MonitorConflict => 12
    case MaxDeliverMismatch => 13
    case ScheduleIncoherent => 14
    case ConnectionMissing => 15
  }

  ghost predicate HasFault(c: Consumer, f: Fault) {
    match f
    case PrefetchTooLarge => c.keepInProgress && c.maxMessages > 1
    case StreamMissing => !c.stream
    case DurableMissing => !c.durable
    case CallbackMissing => !c.callback
    case TwoFilters => c.filterSubject && c.filterSubjects != []
    case FilterEmpty => exists i :: 0 <= i < |c.filterSubjects| && !c.filterSubjects[i]
    case AckWaitNegative => c.ackWait < 0
    case MaxDeliverInvalid => c.maxDeliver < -1
    case MaxMessagesNegative => c.maxMessages < 0
    case MaxAckPendingInvalid => c.maxAckPending < -1
    case InactiveThresholdNegative => c.inactiveThreshold < 0
    case DrainWindowNegative => c.drainWindow < 0
    case MonitorConflict =>
      c.retry.Some? && c.floorMonitor.Some? && c.retryMonitor.Some? && c.floorMonitor != c.retryMonitor
    case MaxDeliverMismatch => c.retry.Some? && c.retry.value.maxDeliver != EffectiveMaxDeliver(c)
    case ScheduleIncoherent => (c.retry.Some? || c.backOff != []) && !S.Coherent(ScheduleOf(c, 0))
    case ConnectionMissing => !c.connection
  }

  ghost predicate Acceptable(c: Consumer) {
    forall f :: !HasFault(c, f)
  }

  /** Acceptance in closed form, the defaults written out. */
  lemma AcceptableIff(c: Consumer)
    ensures Acceptable(c) <==>
      && c.stream && c.durable && c.callback && c.connection
      && (c.keepInProgress ==> c.maxMessages <= 1) && c.maxMessages >= 0
      && (c.filterSubjects == [] || (!c.filterSubject && forall i :: 0 <= i < |c.filterSubjects| ==> c.filterSubjects[i]))
      && c.ackWait >= 0 && c.maxDeliver >= -1 && c.maxAckPending >= -1
      && c.inactiveThreshold >= 0 && c.drainWindow >= 0
      && (c.retry.Some? ==>
            && c.retry.value.maxDeliver == (if c.maxDeliver == 0 then 8 else c.maxDeliver)
            && (c.floorMonitor.None? || c.retryMonitor.None? || c.floorMonitor == c.retryMonitor))
      && (c.retry.Some? || c.backOff != [] ==> S.Coherent(ScheduleOf(c, 0)))
    ensures forall age: Int64 ::
      var s := ScheduleOf(c, age);
      && s.maxDeliver == (if c.maxDeliver == 0 then 8 else if c.maxDeliver < 0 then 0 else c.maxDeliver)
      && s.ackWait == (if c.ackWait == 0 then 30_000_000_000 else c.ackWait)
      && s.serverBackOff == c.backOff && s.nakDelay == 0 && s.streamMaxAge == age
      && (c.retry.None? ==> s.captureReserve == 0 && s.recoverBy == 0 && s.floorAge == 0 && s.maxTimeToDeadLetter == 0)
  {
    if Acceptable(c) {
      AcceptableNumbers(c);
      assert !HasFault(c, MonitorConflict) && !HasFault(c, MaxDeliverMismatch) && !HasFault(c, ScheduleIncoherent);
    } else {
      var f :| HasFault(c, f);
    }
  }

  lemma AcceptableNumbers(c: Consumer)
    requires Acceptable(c)
    ensures c.stream && c.durable && c.callback && c.connection
    ensures (c.keepInProgress ==> c.maxMessages <= 1) && c.maxMessages >= 0
    ensures c.filterSubjects == [] || (!c.filterSubject && forall i :: 0 <= i < |c.filterSubjects| ==> c.filterSubjects[i])
    ensures c.ackWait >= 0 && c.maxDeliver >= -1 && c.maxAckPending >= -1
    ensures c.inactiveThreshold >= 0 && c.drainWindow >= 0
  {
    assert !HasFault(c, StreamMissing) && !HasFault(c, DurableMissing) && !HasFault(c, CallbackMissing);
    assert !HasFault(c, ConnectionMissing) && !HasFault(c, PrefetchTooLarge) && !HasFault(c, MaxMessagesNegative);
    assert !HasFault(c, TwoFilters) && !HasFault(c, FilterEmpty) && !HasFault(c, AckWaitNegative);
    assert !HasFault(c, MaxDeliverInvalid) && !HasFault(c, MaxAckPendingInvalid);
    assert !HasFault(c, InactiveThresholdNegative) && !HasFault(c, DrainWindowNegative);
  }

  /** err is the verdict of a checker that stops at the first fault. */
  ghost predicate FirstFault(c: Consumer, err: Option<Fault>, from: nat) {
    match err
    case None => forall f :: Order(f) >= from ==> !HasFault(c, f)
    case Some(g) => Order(g) >= from && HasFault(c, g) && forall f :: from <= Order(f) < Order(g) ==> !HasFault(c, f)
  }

  /** Rejects with the first fault in the source's order, accepts exactly when there is none. */
  method Validate(c: Consumer) returns (err: Option<Fault>)
    ensures FirstFault(c, err, 0)
    ensures err.None? <==> Acceptable(c)
  {
    if c.keepInProgress && c.maxMessages > 1 { return Some(PrefetchTooLarge); }
    if !c.stream { return Some(StreamMissing); }
    if !c.durable { return Some(DurableMissing); }
    if !c.callback { return Some(CallbackMissing); }
    if c.filterSubject && |c.filterSubjects| != 0 { return Some(TwoFilters); }
    var i := 0;
    while i < |c.filterSubjects|
      invariant 0 <= i <= |c.filterSubjects|
      invariant forall k :: 0 <= k < i ==> c.filterSubjects[k]
    {
      if !c.filterSubjects[i] {
        assert HasFault(c, FilterEmpty);
        return Some(FilterEmpty);
      }
      i := i + 1;
    }
    err := ValidateNumbers(c);
    assert forall f :: Order(f) < 6 ==> !HasFault(c, f);
  }

  /** A cap that disagrees with the Retry's is reported as that, not as an incoherent ladder. */
  lemma MismatchReportsAsItself(c: Consumer, err: Option<Fault>)
    requires FirstFault(c, err, 0) && err == Some(ScheduleIncoherent) && c.retry.Some?
    ensures c.retry.value.maxDeliver == if c.maxDeliver == 0 then 8 else c.maxDeliver
  {
    assert !HasFault(c, MaxDeliverMismatch);
  }

  method ValidateNumbers(c: Consumer) returns (err: Option<Fault>)
    ensures FirstFault(c, err, 6)
  {
    if c.ackWait < 0 { return Some(AckWaitNegative); }
    if c.maxDeliver < -1 { return Some(MaxDeliverInvalid); }
    if c.maxMessages < 0 { return Some(MaxMessagesNegative); }
    if c.maxAckPending < -1 { return Some(MaxAckPendingInvalid); }
    if c.inactiveThreshold < 0 { return Some(InactiveThresholdNegative); }
    if c.drainWindow < 0 { return Some(DrainWindowNegative); }
    err := ValidateRetry(c);
    assert forall f :: 6 <= Order(f) < 12 ==> !HasFault(c, f);
  }

  method ValidateRetry(c: Consumer) returns (err: Option<Fault>)
    ensures FirstFault(c, err, 12)
  {
    if c.floorMonitor.Some? && c.retry.Some? && c.retryMonitor.Some? && c.floorMonitor != c.retryMonitor {
      return Some(MonitorConflict);
    }
    if c.retry.Some? && c.retry.value.maxDeliver != EffectiveMaxDeliver(c) {
      return Some(MaxDeliverMismatch);
    }
    if c.retry.Some? || |c.backOff| > 0 {
      var vs := S.Validate(ScheduleOf(c, 0));
      if vs != [] { return Some(ScheduleIncoherent); }
    }
    if !c.connection { return Some(ConnectionMissing); }
    return None;
  }

  datatype StreamInfo = Unreadable | Info(maxAge: Int64)

  /** A stream that cannot be read is an error, never a pass. */
  method CheckAgainstStream(c: Consumer, info: StreamInfo) returns (ok: bool)
    ensures ok <==> AgreesWithStream(c, info)
  {
    if c.retry.None? && |c.backOff| == 0 { return true; }
    if info.Unreadable? { return false; }
    var vs := S.Validate(ScheduleOf(c, info.maxAge));
    return vs == [];
  }

  ghost predicate AgreesWithStream(c: Consumer, info: StreamInfo) {
    (c.retry.Some? || c.backOff != []) ==> info.Info? && S.Coherent(ScheduleOf(c, info.maxAge))
  }

  // ---------------------------------------------------------------- the broker's clock

  /** The durable as Start creates it. */
  datatype Durable = Durable(ackWait: Int64, maxDeliver: Int64, backOff: seq<Int64>)

  function Created(c: Consumer): Durable {
    Durable(EffectiveAckWait(c), EffectiveMaxDeliver(c), c.backOff)
  }

  /** When the broker hands out delivery n of a message stored at time zero that is never
      acked: the ack timeout runs on the ladder, on its last rung once it is used up, and on
      AckWait when there is none. */
  ghost function Arrival(d: Durable, n: nat): int {
    if n <= 1 then 0
    else Arrival(d, n - 1) + AckTimeout(d, n)
  }

  function AckTimeout(d: Durable, n: nat): Int64
    requires n >= 2
  {
    if d.backOff == [] then d.ackWait
    else if n - 2 < |d.backOff| then d.backOff[n - 2]
    else d.backOff[|d.backOff| - 1]
  }

  lemma CreatedAsConfigured(c: Consumer)
    ensures var d := Created(c);
            && d.ackWait == (if c.ackWait == 0 then 30_000_000_000 else c.ackWait)
            && d.maxDeliver == (if c.maxDeliver == 0 then 8 else c.maxDeliver)
            && d.backOff == c.backOff
  {
  }

  /** The bridge between the two clocks: AckTimeout is the broker's side of RungBefore, so this
      carries the schedule's results over to arrivals and is no result of its own. */
  lemma {:induction false} ArrivalIsWaited(c: Consumer, maxAge: Int64, n: nat)
    ensures Arrival(Created(c), n) == S.Waited(ScheduleOf(c, maxAge), n)
  {
    if n > 1 {
      ArrivalIsWaited(c, maxAge, n - 1);
    }
  }

  /** A delivery that fails outright: settled, not cancelled, and not stopped by the breaker. */
  ghost predicate FailsUninterrupted(r: R.Config, d: B.Delivery) {
    d.Settle? && !d.c.cancelled && !(r.mode.Enforce? && B.DispositionOf(r, d).s.breakerTripped)
  }

  /** Settled by doing nothing: retried for no particular cause, nothing asked of the broker. */
  ghost predicate LeftOnLadder(r: R.Config, d: B.Delivery) {
    d.Settle? && var x := B.DispositionOf(r, d); x.s.outcome.Retried? && x.s.cause.NoCause? && x.ops == []
  }

  /** Captured because the ladder ran out. */
  ghost predicate EntersTerminal(r: R.Config, d: B.Delivery) {
    d.Settle? && var x := B.DispositionOf(r, d); x.s.cause.Exhausted? && x.ops != []
  }

  lemma LadderThenDeadLetter(r: R.Config, ds: seq<B.Delivery>, i: nat)
    requires B.Run(r, ds) && i < |ds| && FailsUninterrupted(r, ds[i])
    ensures i + 1 < r.maxDeliver - r.captureReserve ==> LeftOnLadder(r, ds[i]) && !B.Landed(ds[i])
    ensures i + 1 >= r.maxDeliver - r.captureReserve ==> EntersTerminal(r, ds[i])
  {
  }

  /** What acceptance buys. A message that fails on every delivery is left on the ladder until
      delivery DeadLetterDelivery, which every complete run reaches, and is captured as
      exhausted there, at exactly the schedule's TimeToDeadLetter on the broker's clock. */
  lemma AcceptedConfigMeansWhatItSays(c: Consumer, info: StreamInfo, ds: seq<B.Delivery>)
    requires Acceptable(c) && AgreesWithStream(c, info) && c.retry.Some? && R.WellFormed(c.retry.value)
    requires B.Complete(c.retry.value, ds)
    requires forall i :: 0 <= i < |ds| ==> FailsUninterrupted(c.retry.value, ds[i])
    ensures info.Info?
    ensures var r, s := c.retry.value, ScheduleOf(c, info.maxAge);
            var last := S.DeadLetterDelivery(s);
            && 1 <= last <= |ds|
            && (forall i :: 0 <= i < last - 1 ==> LeftOnLadder(r, ds[i]))
            && EntersTerminal(r, ds[last - 1])
            && Arrival(Created(c), last) == S.Waited(s, last)
  {
    var r, s := c.retry.value, ScheduleOf(c, info.maxAge);
    assert !HasFault(c, MaxDeliverMismatch) && !HasFault(c, AckWaitNegative);
    S.CoherentTerminalBranch(s);
    var last := S.DeadLetterDelivery(s);
    assert last == r.maxDeliver - r.captureReserve;
    forall i | 0 <= i < |ds|
      ensures i < last - 1 ==> LeftOnLadder(r, ds[i]) && !B.Landed(ds[i])
      ensures i >= last - 1 ==> EntersTerminal(r, ds[i])
    {
      LadderThenDeadLetter(r, ds, i);
    }
    ArrivalIsWaited(c, info.maxAge, last);
  }

  /** The bounds the deployment asserted on hold of that arrival exactly when it fits in a
      duration, which any ladder short of 292 years does. */
  lemma AcceptedBoundsHold(c: Consumer, info: StreamInfo)
    requires Acceptable(c) && AgreesWithStream(c, info) && c.retry.Some? && R.WellFormed(c.retry.value)
    ensures info.Info?
    ensures var r, last := c.retry.value, S.DeadLetterDelivery(ScheduleOf(c, info.maxAge));
            && 0 <= last
            && var t := Arrival(Created(c), last);
               && 0 <= t
               && (r.maxTimeToDeadLetter > 0 ==> (t <= r.maxTimeToDeadLetter <==> t <= MAX64))
               && (info.maxAge > 0 ==> (t < info.maxAge <==> t <= MAX64))
  {
    var s := ScheduleOf(c, info.maxAge);
    assert !HasFault(c, MaxDeliverMismatch) && !HasFault(c, AckWaitNegative);
    S.CoherentTerminalBranch(s);
    S.AcceptedBoundIff(s);
    ArrivalIsWaited(c, info.maxAge, S.DeadLetterDelivery(s));
  }

  /** The breaker's window on an accepted ladder: some delivery at or before the dead-letter one
      arrives inside [FloorAge, 2*FloorAge]; it comes after RecoverBy exactly when the arrival
      of RecoverBy fits in a duration. */
  lemma AcceptedBreakerWindow(c: Consumer, info: StreamInfo) returns (n: nat)
    requires Acceptable(c) && AgreesWithStream(c, info) && c.retry.Some? && R.WellFormed(c.retry.value)
    requires c.retry.value.monitorAge.Some? && c.retry.value.monitorAge.value > 0
    requires var r := c.retry.value; r.maxDeliver - r.captureReserve >= 2
    ensures var r, age := c.retry.value, c.retry.value.monitorAge.value;
            && 2 <= n <= r.maxDeliver - r.captureReserve
            && (r.recoverBy < n <==> Arrival(Created(c), r.recoverBy) <= MAX64)
            && age <= Arrival(Created(c), n) <= 2 * age
            && forall m: nat :: m < n ==> Arrival(Created(c), m) < age
  {
    var r, s := c.retry.value, ScheduleOf(c, info.maxAge);
    assert !HasFault(c, MaxDeliverMismatch) && !HasFault(c, AckWaitNegative);
    S.CoherentTerminalBranch(s);
    ArrivalIsWaited(c, info.maxAge, S.DeadLetterDelivery(s));
    LadderTakesTime(c, s);
    n := S.BreakerWindow(s);
    forall m: nat ensures Arrival(Created(c), m) == S.Waited(s, m) {
      ArrivalIsWaited(c, info.maxAge, m);
    }
  }

  lemma LadderTakesTime(c: Consumer, s: S.Schedule)
    requires S.Coherent(s) && s.maxDeliver > 0 && s.ackWait > 0 && s.nakDelay == 0
    requires S.DeadLetterDelivery(s) >= 2
    ensures 0 < S.Waited(s, S.DeadLetterDelivery(s))
  {
    S.CoherentRungs(s);
    S.WaitedMonotone(s, 2, S.DeadLetterDelivery(s));
    assert S.Waited(s, 1) == 0;
    assert !S.Holds(s, S.RungNotPositive(0));
  }

  /** A message failing on the broker's clock: the note at j, of its first delivery, starts its
      failure clock, nothing loses that clock before the note at own, and that note is of the
      delivery the broker hands out so much later. */
  ghost predicate FailsOnLadder(c: Consumer, ss: seq<H.Sys>, es: seq<H.Event>, j: nat, own: nat)
    requires |ss| == |es| + 1 && own < |es| && es[own].Note?
  {
    var msg := es[own].msg;
    && msg.meta.Some? && j <= own && es[j].Note? && R.StreamSeq(msg) !in ss[j].failing
    && (forall m :: j < m <= own ==> R.StreamSeq(msg) in ss[m].failing)
    && es[own].now == es[j].now + Arrival(Created(c), R.NumDelivered(msg))
  }

  /** Inside that window the breaker does fire, and not before it. While the floor has been
      stalled below the message for FloorAge and the budget is open, a message failing on the
      broker's clock trips on exactly the deliveries from n on that also reach MinDeliveries;
      and delivery n comes at most 2*FloorAge after the first failure. */
  lemma AcceptedBreakerFires(c: Consumer, info: StreamInfo, ss: seq<H.Sys>, es: seq<H.Event>, j: nat, own: nat, k: nat, h: nat, i: nat) returns (n: nat)
    requires Acceptable(c) && AgreesWithStream(c, info) && c.retry.Some? && R.WellFormed(c.retry.value)
    requires c.retry.value.monitorAge.Some? && c.retry.value.monitorAge.value > 0
    requires var r := c.retry.value; r.maxDeliver - r.captureReserve >= 2
    requires H.Run(c.retry.value, ss, es) && H.WholeCall(es, own, h, i) && FailsOnLadder(c, ss, es, j, own)
    requires k < h && es[k].Reading? && H.StallSeen(es, h, k, es[k].r.floor, es[k].r.at)
    requires !(ss[k].mon.stalled && ss[k].mon.floor == es[k].r.floor) && es[k].r.floor < R.StreamSeq(es[own].msg)
    requires es[h].at - es[k].r.at >= c.retry.value.monitorAge.value
    requires R.MayClaim(ss[i].budget, es[k].r.floor, c.retry.value.monitorAge.value, es[own].now)
    ensures n <= c.retry.value.maxDeliver - c.retry.value.captureReserve
    ensures c.retry.value.recoverBy < n <==> Arrival(Created(c), c.retry.value.recoverBy) <= MAX64
    ensures Arrival(Created(c), n) <= 2 * c.retry.value.monitorAge.value
    ensures es[i].tripped <==> R.NumDelivered(es[own].msg) >= Max(n, c.retry.value.minDeliveries)
  {
    n := AcceptedBreakerWindow(c, info);
    H.ClaimTripsExactlyWhen(c.retry.value, ss, es, j, own, k, h, i);
    var m := R.NumDelivered(es[own].msg);
    if m >= n {
      ArrivalMonotone(c, info, n, m);
    }
  }

  lemma ArrivalMonotone(c: Consumer, info: StreamInfo, m: nat, n: nat)
    requires Acceptable(c) && AgreesWithStream(c, info) && c.retry.Some? && m <= n
    ensures Arrival(Created(c), m) <= Arrival(Created(c), n)
  {
    var s := ScheduleOf(c, info.maxAge);
    assert !HasFault(c, AckWaitNegative);
    S.CoherentRungs(s);
    S.WaitedMonotone(s, m, n);
    ArrivalIsWaited(c, info.maxAge, m);
    ArrivalIsWaited(c, info.maxAge, n);
  }

  /** And, the arrival of RecoverBy fitting in a duration, no message redelivered exactly on the
      broker's clock trips it at or before RecoverBy, in any interleaved history. */
  lemma AcceptedConfigProtectsRecovery(c: Consumer, info: StreamInfo, ss: seq<H.Sys>, es: seq<H.Event>, i: nat, start: int)
    requires Acceptable(c) && AgreesWithStream(c, info) && c.retry.Some? && R.WellFormed(c.retry.value)
    requires c.retry.value.monitorAge.Some? && c.retry.value.monitorAge.value > 0
    requires Arrival(Created(c), c.retry.value.recoverBy) <= MAX64
    requires H.Run(c.retry.value, ss, es) && i < |es| && es[i].Claim? && es[i].tripped && es[i].id in ss[i].calls
    requires forall j :: 0 <= j < i && es[j].Note? && R.StreamSeq(es[j].msg) == R.StreamSeq(ss[i].calls[es[i].id].msg) ==>
      es[j].now == start + Arrival(Created(c), R.NumDelivered(es[j].msg))
    ensures R.NumDelivered(ss[i].calls[es[i].id].msg) > c.retry.value.recoverBy
  {
    var s := ScheduleOf(c, info.maxAge);
    assert !HasFault(c, MaxDeliverMismatch) && !HasFault(c, AckWaitNegative);
    S.CoherentTerminalBranch(s);
    forall n: nat ensures Arrival(Created(c), n) == S.Waited(s, n) {
      ArrivalIsWaited(c, info.maxAge, n);
    }
    H.NoTripWhileRecovering(c.retry.value, s, ss, es, i, start);
  }
}
