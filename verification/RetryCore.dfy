/** What jsconsumer's Retry decides, as functions and relations over values: construction,
    the failure clocks, the quarantine budget and the settlement of one delivery. */
module RetryCore {
  import opened Basics
  import S = Schedules
  import F = Floor

  const DEFAULT_MIN_DELIVERIES: int := 2
  const DEFAULT_CAPTURE_RESERVE: int := 1
  const NO_CAPTURE_RESERVE: int := -1
  const HOUR: int := 3600 * F.SECOND

  // ---------------------------------------------------------------- construction

  /** A RetryConfig as the adopter writes it. monitorAge is the monitor's threshold, or None
      when no monitor is supplied; breaker is the raw mode number. */
  datatype RawConfig = RawConfig(
    publisher: bool, dlqSubject: bool,
    maxDeliver: Int64, minDeliveries: Int64, captureReserve: Int64,
    maxTimeToDeadLetter: Int64, recoverBy: Int64,
    monitorAge: Option<Int64>, breaker: int)

  datatype Mode = Observe | Enforce

  /** A validated configuration, defaults applied. */
  datatype Config = Config(
    maxDeliver: Int64, minDeliveries: Int64, captureReserve: Int64,
    maxTimeToDeadLetter: Int64, recoverBy: Int64,
    monitorAge: Option<Int64>, mode: Mode, failureTTL: Int64)

  datatype ConfigResult =
    | Built(config: Config)
    | PublisherMissing | SubjectMissing | MaxDeliverNotPositive | MinDeliveriesNegative
    | ReserveInvalid | MinDeliveriesUnreachable | EnforceWithoutMonitor | ModeUnknown | RecoverByInvalid

  function EffectiveReserve(reserve: Int64): Int64 {
    if reserve == 0 then DEFAULT_CAPTURE_RESERVE
    else if reserve == NO_CAPTURE_RESERVE then 0
    else reserve
  }

  /** The ladder-free schedule NewRetry asks about RecoverBy. */
  function LadderFree(maxDeliver: Int64, reserve: Int64, recoverBy: Int64): S.Schedule {
    S.Schedule(0, 0.0, 0, [], maxDeliver, 0, reserve, 0, recoverBy, 0, 0)
  }

  function FailureTTL(monitorAge: Option<Int64>): Int64 {
    match monitorAge
    case None => HOUR
    case Some(age) => Max(HOUR, Wrap(4 * age))
  }

  ghost function NewRetry(c: RawConfig): ConfigResult {
    var min := if c.minDeliveries == 0 then DEFAULT_MIN_DELIVERIES else c.minDeliveries;
    var reserve := EffectiveReserve(c.captureReserve);
    var recover := if c.recoverBy == 0 then min else c.recoverBy;
    var probe := LadderFree(c.maxDeliver, reserve, recover);
    if !c.publisher then PublisherMissing
    else if !c.dlqSubject then SubjectMissing
    else if c.maxDeliver <= 0 then MaxDeliverNotPositive
    else if c.minDeliveries < 0 then MinDeliveriesNegative
    else if reserve < 0 then ReserveInvalid
    else if min > c.maxDeliver - reserve then MinDeliveriesUnreachable
    else if c.breaker == 1 && c.monitorAge.None? then EnforceWithoutMonitor
    else if c.breaker != 0 && c.breaker != 1 then ModeUnknown
    else if S.Holds(probe, S.RecoverByNegative) || S.Holds(probe, S.RecoverByTooLate)
         || S.Holds(probe, S.RecoveryInsideBreaker) then RecoverByInvalid
    else Built(Config(c.maxDeliver, min, reserve, c.maxTimeToDeadLetter, recover, c.monitorAge,
                      if c.breaker == 1 then Enforce else Observe, FailureTTL(c.monitorAge)))
  }

  /** What every Retry in the program satisfies. */
  predicate WellFormed(cfg: Config) {
    && 1 <= cfg.minDeliveries <= cfg.maxDeliver - cfg.captureReserve
    && 0 <= cfg.captureReserve
    && 1 <= cfg.recoverBy <= cfg.maxDeliver - cfg.captureReserve
    && (cfg.mode.Enforce? ==> cfg.monitorAge.Some?)
    && cfg.failureTTL >= HOUR
  }

  /** Construction accepts exactly the configurations whose numbers hang together, what it
      returns leaves the handler at least one delivery before the dead-letter branch, and it
      is what was asked for: every value as given, or the documented default for a zero. */
  lemma NewRetryAcceptsIff(c: RawConfig)
    ensures var min := if c.minDeliveries == 0 then 2 else c.minDeliveries;
            var reserve := if c.captureReserve == 0 then 1 else if c.captureReserve == -1 then 0 else c.captureReserve;
            NewRetry(c).Built? <==>
              && c.publisher && c.dlqSubject && c.maxDeliver > 0
              && 1 <= min && 0 <= reserve && min + reserve <= c.maxDeliver
              && 0 <= c.recoverBy && c.recoverBy + reserve <= c.maxDeliver
              && (c.breaker == 0 || (c.breaker == 1 && c.monitorAge.Some?))
    ensures NewRetry(c).Built? ==> WellFormed(NewRetry(c).config)
    ensures NewRetry(c).Built? ==>
      var r := NewRetry(c).config;
      && (r.mode.Enforce? <==> c.breaker == 1) && (r.mode.Observe? <==> c.breaker == 0)
      && r.maxDeliver == c.maxDeliver && r.maxTimeToDeadLetter == c.maxTimeToDeadLetter
      && r.monitorAge == c.monitorAge
      && r.minDeliveries == (if c.minDeliveries == 0 then 2 else c.minDeliveries)
      && r.captureReserve == (if c.captureReserve == 0 then 1 else if c.captureReserve == -1 then 0 else c.captureReserve)
      && r.recoverBy == (if c.recoverBy == 0 then r.minDeliveries else c.recoverBy)
      && (c.monitorAge.None? ==> r.failureTTL == 3_600_000_000_000)
      && (c.monitorAge.Some? ==>
            r.failureTTL == var quad := Wrap(4 * c.monitorAge.value); if quad > 3_600_000_000_000 then quad else 3_600_000_000_000)
  {
  }

  /** Deliveries m and n of a message on an accepted schedule whose breaker threshold is age. */
  ghost predicate OnAcceptedLadder(s: S.Schedule, age: Int64, m: int, n: int) {
    && S.Coherent(s) && s.maxDeliver > 0 && s.ackWait >= 0 && s.floorAge == age
    && 1 <= m <= n <= S.DeadLetterDelivery(s)
  }

  /** Whether a clock last touched by the failure of delivery m outlives the age limit at
      delivery n. Deliveries between them may have noted nothing here: another replica's, or
      one that was lost or interrupted. */
  ghost predicate ExpiresBetween(s: S.Schedule, m: int, n: int) {
    Expired(Record(0, S.Waited(s, m)), S.Waited(s, n), FailureTTL(Some(s.floorAge)))
  }

  /** The age limit keeps every clock across up to g rungs, on every accepted schedule. */
  ghost predicate KeptAcross(age: Int64, g: nat) {
    forall s: S.Schedule, m: int, n: int ::
      OnAcceptedLadder(s, age, m, n) && n - m <= g ==> !ExpiresBetween(s, m, n)
  }

  lemma {:induction false} GapBounded(s: S.Schedule, m: int, n: int)
    requires OnAcceptedLadder(s, s.floorAge, m, n) && s.floorAge > 0
    ensures S.Waited(s, n) - S.Waited(s, m) <= (n - m) * s.floorAge
    decreases n - m
  {
    if m < n {
      RungWithinThreshold(s, n);
      GapBounded(s, m, n - 1);
      OneMore(n - 1 - m, s.floorAge);
    }
  }

  lemma RungWithinThreshold(s: S.Schedule, n: int)
    requires S.Coherent(s) && s.maxDeliver > 0 && s.floorAge > 0 && 2 <= n <= S.DeadLetterDelivery(s)
    ensures S.RungBefore(s, n) <= s.floorAge
  {
    S.CoherentTerminalBranch(s);
    assert !S.Holds(s, S.RungLongerThanBreaker);
  }

  /** A message still on an accepted ladder is never forgotten for its age across g rungs
      without a noted failure if and only if the limit covers g thresholds. */
  lemma LadderNeverExpiresIff(age: Int64, g: nat)
    requires age > 0
    ensures KeptAcross(age, g) <==> g * age <= FailureTTL(Some(age))
  {
    var ttl := FailureTTL(Some(age));
    if g * age <= ttl {
      forall s: S.Schedule, m: int, n: int | OnAcceptedLadder(s, age, m, n) && n - m <= g
        ensures !ExpiresBetween(s, m, n)
      {
        GapBounded(s, m, n);
        Scaled(n - m, g, age);
      }
    } else {
      LimitAtMost(age);
      var h := RoundedUp(ttl, HOUR + 5, age);
      if h > g {
        Scaled(g, h - 1, age);
      }
      var s := OneRung(age, h);
      OneRungAccepted(age, h);
      OneRungWaits(age, h, h + 1);
      assert OnAcceptedLadder(s, age, 1, h + 1) && ExpiresBetween(s, 1, h + 1);
    }
  }

  lemma LimitAtMost(age: Int64)
    requires age > 0
    ensures 0 <= FailureTTL(Some(age)) < (HOUR + 5) * age
  {
    assert Wrap(4 * age) <= 4 * age;
  }

  /** The ladder whose only rung is the whole threshold, repeated for h rungs. */
  function OneRung(age: Int64, h: nat): S.Schedule
    requires h <= HOUR + 5
  {
    S.Schedule(0, 0.0, 0, [age], h + 2, age, 1, 0, 1, age, 0)
  }

  lemma {:induction false} OneRungWaits(age: Int64, h: nat, n: nat)
    requires h <= HOUR + 5 && n >= 1
    ensures S.Waited(OneRung(age, h), n) == (n - 1) * age
  {
    if n > 1 {
      OneRungWaits(age, h, n - 1);
      OneMore(n - 2, age);
    }
  }

  /** It is accepted even where its sum wraps, for then the sum the program sees is negative. */
  lemma OneRungAccepted(age: Int64, h: nat)
    requires age > 0 && 1 <= h <= HOUR + 5 && (h - 1) * age <= MAX64
    ensures S.Coherent(OneRung(age, h)) && S.DeadLetterDelivery(OneRung(age, h)) == h + 1
  {
    var s := OneRung(age, h);
    OneRungWaits(age, h, 1);
    OneRungWaits(age, h, h + 1);
    Scaled(1, h, age);
    OneMore(h - 1, age);
    var ttl := Wrap(h * age);
    assert ttl < 0 || ttl == h * age;
    forall p ensures !S.Holds(s, p) {}
  }

  /** For one schedule: no clock is forgotten for its age while its message is on the ladder if
      and only if the limit covers the whole time to dead-letter. */
  lemma NeverForgottenMidFlightIff(s: S.Schedule)
    requires S.Coherent(s) && s.maxDeliver > 0 && s.ackWait >= 0
    ensures (forall m, n :: OnAcceptedLadder(s, s.floorAge, m, n) ==> !ExpiresBetween(s, m, n))
       <==> S.Waited(s, S.DeadLetterDelivery(s)) <= FailureTTL(Some(s.floorAge))
  {
    S.CoherentRungs(s);
    S.CoherentTerminalBranch(s);
    var last := S.DeadLetterDelivery(s);
    assert OnAcceptedLadder(s, s.floorAge, 1, last) && S.Waited(s, 1) == 0;
    if S.Waited(s, last) <= FailureTTL(Some(s.floorAge)) {
      forall m, n | OnAcceptedLadder(s, s.floorAge, m, n) ensures !ExpiresBetween(s, m, n) {
        S.WaitedMonotone(s, m, n);
        S.WaitedMonotone(s, n, last);
      }
    }
  }

  const QUARTER: int := 900 * F.SECOND

  /** Fifteen-minute rungs under a fifteen-minute threshold, the default one: a clock noted at
      delivery 2 and not again has expired by delivery 7, two short of the dead-letter one. */
  lemma QuarterHourLadderForgets()
    ensures OnAcceptedLadder(OneRung(QUARTER, 8), QUARTER, 2, 7) && ExpiresBetween(OneRung(QUARTER, 8), 2, 7)
    ensures S.DeadLetterDelivery(OneRung(QUARTER, 8)) == 9
  {
    OneRungAccepted(QUARTER, 8);
    OneRungWaits(QUARTER, 8, 2);
    OneRungWaits(QUARTER, 8, 7);
  }

  /** For which thresholds the limit covers even one rung: all whose fourfold fits in a duration, and one band above,
      where the wrapped product happens to be large enough again. */
  lemma LimitCoversThresholdIff(age: Int64)
    requires age > 0
    ensures age <= FailureTTL(Some(age)) <==>
      4 * age <= MAX64 || (TWO64 <= 3 * age && 4 * age <= TWO64 + MAX64)
  {
    if 4 * age > MAX64 {
      var q := (4 * age - MIN64) / TWO64;
      assert Wrap(4 * age) == 4 * age - q * TWO64 && 1 <= q <= 2;
    }
  }

  /** An observing configuration differs from an enforcing one in its mode alone. */
  function WithMode(cfg: Config, mode: Mode): Config { cfg.(mode := mode) }

  // ---------------------------------------------------------------- messages

  datatype Meta = Meta(streamSeq: nat, numDelivered: nat)
  datatype Msg = Msg(meta: Option<Meta>)

  function NumDelivered(m: Msg): nat {
    match m.meta case Some(x) => x.numDelivered case None => 0
  }

  function StreamSeq(m: Msg): nat {
    match m.meta case Some(x) => x.streamSeq case None => 0
  }

  // ---------------------------------------------------------------- failure clocks

  const MAX_TRACKED: int := 4096
  const SWEEP_TARGET: int := 3072

  datatype Record = Record(first: int, last: int)
  type Clocks = map<nat, Record>

  /** The clocks after a failure of seq at now, before any sweep. */
  function Noted(f: Clocks, sn: nat, now: int): Clocks {
    f[sn := Record(if sn in f then f[sn].first else now, now)]
  }

  function FailingFor(f: Clocks, sn: nat, now: int): int {
    if sn in f then now - f[sn].first else 0
  }

  predicate Expired(r: Record, now: int, ttl: int) {
    now - r.last > ttl
  }

  function Live(f: Clocks, now: int, ttl: int): Clocks {
    map k | k in f && !Expired(f[k], now, ttl) :: f[k]
  }

  /** f' is a possible outcome of the sweep. Which of several equally old records goes is
      left open, as the source leaves it to the sort. */
  ghost predicate SweptTo(f: Clocks, now: int, ttl: int, f': Clocks) {
    var live := Live(f, now, ttl);
    if |live| <= SWEEP_TARGET then f' == live
    else
      && f'.Keys <= live.Keys && |f'| == SWEEP_TARGET
      && (forall k :: k in f' ==> f'[k] == live[k])
      && (forall k, j :: k in live && k !in f' && j in f' ==> live[k].last <= live[j].last)
  }

  ghost predicate NotedTo(f: Clocks, sn: nat, now: int, ttl: int, f': Clocks) {
    var g := Noted(f, sn, now);
    if |g| > MAX_TRACKED then SweptTo(g, now, ttl, f') else f' == g
  }

  /** The map is bounded, survivors are untouched but for the failure just noted, and only
      expired or oldest-touched records are lost; a failure of seq never moves the clock of
      another sequence, nor the start of its own. */
  lemma BoundedClocks(f: Clocks, sn: nat, now: int, ttl: int, f': Clocks)
    requires |f| <= MAX_TRACKED && NotedTo(f, sn, now, ttl, f')
    ensures |f'| <= MAX_TRACKED
    ensures |Noted(f, sn, now)| > MAX_TRACKED ==> |f'| <= 3072
    ensures forall k :: k in f' ==> k in f || k == sn
    ensures forall k :: k in f' ==>
      f'[k] == if k != sn then f[k] else Record(if sn in f then f[sn].first else now, now)
    ensures |f.Keys + {sn}| <= 4096 ==> f'.Keys == f.Keys + {sn}
    ensures |Live(Noted(f, sn, now), now, ttl)| <= 3072 ==>
      forall k :: k in f && k !in f' ==> Expired(Noted(f, sn, now)[k], now, ttl)
    ensures forall k, j :: k in f && k !in f' && j in f' ==>
      Expired(Noted(f, sn, now)[k], now, ttl) || Noted(f, sn, now)[k].last <= f'[j].last
  {
    var g := Noted(f, sn, now);
    assert g.Keys == f.Keys + {sn};
    var live := Live(g, now, ttl);
    forall k, j | k in f && k !in f' && j in f'
      ensures Expired(g[k], now, ttl) || g[k].last <= f'[j].last
    {
      if k in live {
        assert live[k] == g[k];
      }
    }
  }

  /** When a note loses a clock that has not expired, and how many: exactly when the map
      overflows and expiry alone does not bring it down to the target, and then as many as
      stand above the target. */
  lemma LiveClockLostIff(f: Clocks, sn: nat, now: int, ttl: int, f': Clocks)
    requires NotedTo(f, sn, now, ttl, f')
    ensures var g := Noted(f, sn, now);
            var lost := Live(g, now, ttl).Keys - f'.Keys;
            && |lost| == (if |g| > 4096 && |Live(g, now, ttl)| > 3072 then |Live(g, now, ttl)| - 3072 else 0)
            && ((exists k :: k in g && !Expired(g[k], now, ttl) && k !in f') <==>
                  |g| > 4096 && |Live(g, now, ttl)| > 3072)
  {
    var g := Noted(f, sn, now);
    var live := Live(g, now, ttl);
    var lost := live.Keys - f'.Keys;
    assert forall k :: k in lost <==> k in g && !Expired(g[k], now, ttl) && k !in f';
    if |g| > MAX_TRACKED && |live| > SWEEP_TARGET {
      Removed(live.Keys, f'.Keys);
      assert |lost| > 0;
      var k :| k in lost;
      assert k in g && !Expired(g[k], now, ttl) && k !in f';
    } else {
      assert lost == {};
    }
  }

  lemma Removed(a: set<nat>, b: set<nat>)
    requires b <= a
    ensures |a - b| == |a| - |b|
  {
    assert a == b + (a - b);
  }

  /** Sequences 1 to n have each failed once, all at time zero. */
  ghost function Crowd(n: nat): Clocks {
    if n == 0 then map[] else Noted(Crowd(n - 1), n, 0)
  }

  lemma {:induction false} CrowdClocks(n: nat)
    ensures |Crowd(n)| == n && forall k: nat :: k in Crowd(n) <==> 1 <= k <= n
    ensures forall k :: k in Crowd(n) ==> Crowd(n)[k] == Record(0, 0)
  {
    if n > 0 {
      CrowdClocks(n - 1);
      assert Crowd(n).Keys == Crowd(n - 1).Keys + {n};
    }
  }

  /** It happens: when a full map of n messages and one more have all failed this very instant,
      a sweep may forget the d first of them, however much of their ladders is left; a
      forgotten message that fails again counts as failing for no time at all. */
  lemma SweepForgetsOnTheLadder(n: nat, d: nat, sn: nat, ttl: int, later: int)
    requires n == MAX_TRACKED && d == n + 1 - SWEEP_TARGET && 1 <= sn <= d && ttl >= 0
    ensures var g, f' := Crowd(n + 1), Crowd(n + 1) - Crowd(d).Keys;
            && |Crowd(n)| == n && NotedTo(Crowd(n), n + 1, 0, ttl, f')
            && sn in g && !Expired(g[sn], 0, ttl) && sn !in f'
            && FailingFor(g, sn, later) == later && FailingFor(f', sn, later) == 0
  {
    CrowdClocks(n);
    CrowdClocks(n + 1);
    CrowdClocks(d);
    var g := Crowd(n + 1);
    assert Live(g, 0, ttl) == g;
    var f' := g - Crowd(d).Keys;
    assert f'.Keys == g.Keys - Crowd(d).Keys;
    Removed(g.Keys, Crowd(d).Keys);
  }

  // ---------------------------------------------------------------- the breaker

  datatype Budget = Budget(have: bool, at: int, floor: nat)

  /** One claim per stall window, reset when the floor moves. */
  predicate MayClaim(b: Budget, floor: nat, window: int, now: int) {
    !b.have || floor != b.floor || now - b.at >= window
  }

  /** The conjunction the breaker acts on, all but the budget. */
  predicate Eligible(cfg: Config, stall: F.Stall, msg: Msg, failingFor: int) {
    && cfg.monitorAge.Some?
    && stall.stalled && stall.age >= cfg.monitorAge.value
    && msg.meta.Some? && msg.meta.value.streamSeq > stall.floor
    && NumDelivered(msg) >= cfg.minDeliveries
    && failingFor >= cfg.monitorAge.value
  }

  predicate Trips(cfg: Config, b: Budget, stall: F.Stall, msg: Msg, failingFor: int, now: int) {
    Eligible(cfg, stall, msg, failingFor) && MayClaim(b, stall.floor, cfg.monitorAge.value, now)
  }

  function Spent(cfg: Config, b: Budget, stall: F.Stall, msg: Msg, failingFor: int, now: int): Budget {
    if Trips(cfg, b, stall, msg, failingFor, now) then Budget(true, now, stall.floor) else b
  }

  // ---------------------------------------------------------------- settlement

  /** Unset is the zero value a Settlement starts from. */
  datatype Outcome = Unset | Retried | DeadLettered | Stranded | Uncertain
  datatype Cause = NoCause | FloorAge | Exhausted | Permanent | Shutdown

  datatype Settlement = Settlement(
    outcome: Outcome, cause: Cause, delivered: nat,
    floor: nat, floorAge: int, failingFor: int,
    breakerTripped: bool, captured: bool)

  /** Everything Retry could ask of the broker about a message. Nak and Term are never
      issued; they are here so that a theorem can say so. */
  datatype Op = Publish(cause: Cause, ok: bool) | DoubleAck(ok: bool) | Nak | Term

  datatype SettleError = NoError | ErrStranded | ErrPublishFailed | ErrAckUnconfirmed | ErrAckFailed

  /** What one call did: its report, its error, the requests it sent in order, and whether
      the message's failure clock is dropped. */
  datatype Disposition = Disposition(s: Settlement, err: SettleError, ops: seq<Op>, forget: bool)

  predicate LadderSpent(cfg: Config, delivered: nat) {
    delivered > 0 && delivered >= cfg.maxDeliver - cfg.captureReserve
  }

  predicate BrokerCapReached(cfg: Config, delivered: nat) {
    delivered > 0 && delivered >= cfg.maxDeliver
  }

  /** Capture, then settle, for a settlement that already carries its cause. */
  function Terminated(cfg: Config, s: Settlement, publishOk: bool, ackOk: bool): Disposition {
    var spent := BrokerCapReached(cfg, s.delivered);
    var capture := [Publish(s.cause, publishOk)];
    var captured := s.(captured := true);
    if !publishOk then
      if spent then Disposition(s.(outcome := Stranded), ErrStranded, capture, false)
      else Disposition(s.(outcome := Retried), ErrPublishFailed, capture, false)
    else if !ackOk then
      if spent then Disposition(captured.(outcome := Uncertain), ErrAckUnconfirmed, capture + [DoubleAck(false)], false)
      else Disposition(captured.(outcome := Retried), ErrAckFailed, capture + [DoubleAck(false)], false)
    else Disposition(captured.(outcome := DeadLettered), NoError, capture + [DoubleAck(true)], true)
  }

  /** The branch Settle takes once the breaker has been consulted: s holds the observations
      and whether the breaker tripped. */
  function Disposed(cfg: Config, s: Settlement, interrupted: bool, publishOk: bool, ackOk: bool): Disposition {
    if s.breakerTripped && cfg.mode.Enforce? then
      if interrupted then Disposition(s.(outcome := Retried, cause := Shutdown), NoError, [], false)
      else Terminated(cfg, s.(cause := FloorAge), publishOk, ackOk)
    else if LadderSpent(cfg, s.delivered) then
      if interrupted then Disposition(s.(outcome := Retried, cause := Shutdown), NoError, [], false)
      else Terminated(cfg, s.(cause := Exhausted), publishOk, ackOk)
    else Disposition(s.(outcome := Retried), NoError, [], false)
  }

  /** The inputs of one call: the message, its clock readings, the monitor's answer, the
      handler context, and what the broker answers if it is asked. */
  datatype Call = Call(msg: Msg, now: int, stall: F.Stall, cancelled: bool, publishOk: bool, ackOk: bool)

  /** Cancellation counts as an interruption only while the broker has deliveries left. */
  predicate Interrupted(cfg: Config, c: Call) {
    c.cancelled && !BrokerCapReached(cfg, NumDelivered(c.msg))
  }

  /** Whether this call starts or advances the message's failure clock. */
  predicate NotesFailure(cfg: Config, c: Call) {
    cfg.monitorAge.Some? && !Interrupted(cfg, c)
  }

  function Draft(cfg: Config, f: Clocks, b: Budget, c: Call): Settlement {
    var notes := NotesFailure(cfg, c);
    var failing := if notes then FailingFor(f, StreamSeq(c.msg), c.now) else 0;
    var armed := cfg.monitorAge.Some?;
    Settlement(Unset, NoCause, NumDelivered(c.msg),
               if armed then c.stall.floor else 0,
               if armed then c.stall.age else 0,
               failing,
               notes && Trips(cfg, b, c.stall, c.msg, failing, c.now),
               false)
  }

  function Settled(cfg: Config, f: Clocks, b: Budget, c: Call): Disposition {
    Disposed(cfg, Draft(cfg, f, b, c), Interrupted(cfg, c), c.publishOk, c.ackOk)
  }

  function BudgetAfter(cfg: Config, f: Clocks, b: Budget, c: Call): Budget {
    if NotesFailure(cfg, c)
    then Spent(cfg, b, c.stall, c.msg, FailingFor(f, StreamSeq(c.msg), c.now), c.now)
    else b
  }

  /** An explicit DeadLetter: the clock is noted for the report, the breaker not consulted. */
  function PermanentlyDisposed(cfg: Config, f: Clocks, c: Call): Disposition {
    var armed := cfg.monitorAge.Some?;
    Terminated(cfg,
      Settlement(Unset, Permanent, NumDelivered(c.msg),
                 if armed then c.stall.floor else 0,
                 if armed then c.stall.age else 0,
                 if armed then FailingFor(f, StreamSeq(c.msg), c.now) else 0,
                 false, false),
      c.publishOk, c.ackOk)
  }

  /** The handler's share of the deliveries is used up, or the breaker enforces a trip, and
      the delivery counts as a real attempt. */
  predicate ReachesTerminal(cfg: Config, f: Clocks, b: Budget, c: Call) {
    var n := NumDelivered(c.msg);
    && (c.cancelled ==> n >= cfg.maxDeliver)
    && ((n > 0 && n >= cfg.maxDeliver - cfg.captureReserve)
        || (cfg.mode.Enforce? && Draft(cfg, f, b, c).breakerTripped))
  }

  /** Every ack directly follows a successful publish of the same call, a call publishes at
      most once, and nothing is ever Naked or Termed. */
  ghost predicate CapturesBeforeAcking(ops: seq<Op>) {
    && (forall p :: 0 <= p < |ops| && ops[p].DoubleAck? ==> p > 0 && ops[p - 1].Publish? && ops[p - 1].ok)
    && (forall p :: 0 <= p < |ops| ==> !ops[p].Nak? && !ops[p].Term?)
    && (forall p, q :: 0 <= p < q < |ops| ==> !(ops[p].Publish? && ops[q].Publish?))
  }

  ghost predicate Publishes(ops: seq<Op>, ok: bool) {
    exists p :: 0 <= p < |ops| && ops[p].Publish? && ops[p].ok == ok
  }

  ghost predicate Acks(ops: seq<Op>, ok: bool) {
    exists p :: 0 <= p < |ops| && ops[p] == DoubleAck(ok)
  }

  /** The report agrees with what was asked of the broker and answered, whatever the inputs. */
  ghost predicate ReportsTruthfully(cfg: Config, d: Disposition) {
    var cap := d.s.delivered > 0 && d.s.delivered >= cfg.maxDeliver;
    && CapturesBeforeAcking(d.ops)
    && (forall p :: 0 <= p < |d.ops| && d.ops[p].Publish? ==> d.ops[p].cause == d.s.cause)
    && (d.s.captured <==> Publishes(d.ops, true))
    && (d.s.outcome.DeadLettered? <==> Acks(d.ops, true))
    && (d.s.outcome.Stranded? <==> cap && Publishes(d.ops, false))
    && (d.s.outcome.Uncertain? <==> cap && Acks(d.ops, false))
    && (d.s.outcome.Retried? <==> !cap && !Acks(d.ops, true))
    && !d.s.outcome.Unset?
    && (d.err.ErrStranded? <==> d.s.outcome.Stranded?)
    && (d.err.ErrAckUnconfirmed? <==> d.s.outcome.Uncertain?)
    && (d.err.ErrPublishFailed? <==> !cap && Publishes(d.ops, false))
    && (d.err.ErrAckFailed? <==> !cap && Acks(d.ops, false))
    && (d.forget <==> d.s.outcome.DeadLettered?)
  }

  lemma OpsOf(cfg: Config, s: Settlement, publishOk: bool, ackOk: bool)
    requires !s.captured
    ensures var d := Terminated(cfg, s, publishOk, ackOk);
            && ReportsTruthfully(cfg, d)
            && Publishes(d.ops, publishOk) && (publishOk ==> Acks(d.ops, ackOk))
  {
    var d := Terminated(cfg, s, publishOk, ackOk);
    assert d.ops[0] == Publish(s.cause, publishOk);
    if publishOk {
      assert d.ops[1] == DoubleAck(ackOk);
    }
  }

  /** The state a settlement says it was chosen from is the state of the call. */
  predicate ReportsObservations(cfg: Config, f: Clocks, c: Call, s: Settlement) {
    var sn := if c.msg.meta.Some? then c.msg.meta.value.streamSeq else 0;
    && s.delivered == (if c.msg.meta.Some? then c.msg.meta.value.numDelivered else 0)
    && (cfg.monitorAge.None? ==> s.floor == 0 && s.floorAge == 0 && s.failingFor == 0 && !s.breakerTripped)
    && (cfg.monitorAge.Some? ==> s.floor == c.stall.floor && s.floorAge == c.stall.age)
    && var deferred := c.cancelled && s.delivered < cfg.maxDeliver;
    && (deferred ==> s.failingFor == 0 && !s.breakerTripped)
    && (cfg.monitorAge.Some? && !deferred ==>
          s.failingFor == if sn in f then c.now - f[sn].first else 0)
  }

  lemma DisposedTruthfully(cfg: Config, s: Settlement, interrupted: bool, publishOk: bool, ackOk: bool)
    requires WellFormed(cfg) && s.cause.NoCause? && !s.captured
    requires s.breakerTripped || BrokerCapReached(cfg, s.delivered) ==> !interrupted
    ensures var d := Disposed(cfg, s, interrupted, publishOk, ackOk);
            var terminal := !interrupted && (LadderSpent(cfg, s.delivered) || (cfg.mode.Enforce? && s.breakerTripped));
            && ReportsTruthfully(cfg, d)
            && (d.ops != [] <==> terminal)
            && (BrokerCapReached(cfg, s.delivered) ==> terminal && !d.s.outcome.Retried? && d.s.cause in {FloorAge, Exhausted})
            && (d.s.cause.Shutdown? <==> interrupted && LadderSpent(cfg, s.delivered))
            && (d.s.cause.FloorAge? <==> cfg.mode.Enforce? && s.breakerTripped)
            && d.s.breakerTripped == s.breakerTripped
            && (terminal ==> Publishes(d.ops, publishOk) && (publishOk ==> Acks(d.ops, ackOk)))
  {
    OpsOf(cfg, s.(cause := FloorAge), publishOk, ackOk);
    OpsOf(cfg, s.(cause := Exhausted), publishOk, ackOk);
  }

  /** Settle reports Retried only while the broker will redeliver; at the cap it reports one
      of the three terminal outcomes even when the handler's context is cancelled. It touches
      the broker exactly when it reaches the terminal branch. */
  lemma SettleReportsTruthfully(cfg: Config, f: Clocks, b: Budget, c: Call)
    requires WellFormed(cfg)
    ensures var d := Settled(cfg, f, b, c);
            && ReportsTruthfully(cfg, d)
            && (d.ops != [] <==> ReachesTerminal(cfg, f, b, c))
            && (NumDelivered(c.msg) >= cfg.maxDeliver ==>
                  ReachesTerminal(cfg, f, b, c) && !d.s.outcome.Retried? && d.s.cause in {FloorAge, Exhausted})
            && (d.s.cause.FloorAge? <==> cfg.mode.Enforce? && d.s.breakerTripped)
            && (ReachesTerminal(cfg, f, b, c) ==> Publishes(d.ops, c.publishOk) && (c.publishOk ==> Acks(d.ops, c.ackOk)))
  {
    DisposedTruthfully(cfg, Draft(cfg, f, b, c), Interrupted(cfg, c), c.publishOk, c.ackOk);
  }

  /** Which deliveries count as interrupted, and what that means. A delivery whose context was
      cancelled while the broker still has deliveries to serve asks nothing of the broker and
      judges nothing: no clock, no trip, no budget; it is put down to the shutdown exactly when
      the handler's share of the deliveries was used up. Every other delivery is judged in full
      and reaches the broker exactly when that share is used up or an enforced trip happened. */
  lemma CancelledDeliveryIsDeferred(cfg: Config, f: Clocks, b: Budget, c: Call)
    requires WellFormed(cfg)
    ensures var n := if c.msg.meta.Some? then c.msg.meta.value.numDelivered else 0;
            var spent := n > 0 && n >= cfg.maxDeliver - cfg.captureReserve;
            var d := Settled(cfg, f, b, c);
            if c.cancelled && n < cfg.maxDeliver then
              && d.ops == [] && d.s.outcome.Retried? && d.err.NoError? && !d.forget
              && !d.s.breakerTripped && d.s.failingFor == 0
              && !NotesFailure(cfg, c) && BudgetAfter(cfg, f, b, c) == b
              && d.s.cause == (if spent then Shutdown else NoCause)
            else
              && (NotesFailure(cfg, c) <==> cfg.monitorAge.Some?)
              && (d.ops != [] <==> spent || (cfg.mode.Enforce? && d.s.breakerTripped))
              && d.s.cause == (if cfg.mode.Enforce? && d.s.breakerTripped then FloorAge else if spent then Exhausted else NoCause)
  {
    SettleReportsTruthfully(cfg, f, b, c);
  }

  lemma SettleReportsItsState(cfg: Config, f: Clocks, b: Budget, c: Call)
    requires WellFormed(cfg)
    ensures ReportsObservations(cfg, f, c, Settled(cfg, f, b, c).s)
    ensures Settled(cfg, f, b, c).s.breakerTripped <==>
      NotesFailure(cfg, c) && Trips(cfg, b, c.stall, c.msg, FailingFor(f, StreamSeq(c.msg), c.now), c.now)
  {
  }

  lemma DeadLetterReportsTruthfully(cfg: Config, f: Clocks, c: Call)
    ensures var d := PermanentlyDisposed(cfg, f, c);
            && ReportsTruthfully(cfg, d) && d.s.cause.Permanent? && !d.s.breakerTripped
            && Publishes(d.ops, c.publishOk) && (c.publishOk ==> Acks(d.ops, c.ackOk))
            && ReportsObservations(cfg, f, c.(cancelled := false), d.s)
  {
    OpsOf(cfg, PermanentlyDisposed(cfg, f, c).s.(outcome := Unset, captured := false), c.publishOk, c.ackOk);
  }

  /** Without metadata nothing is ever exhausted and the breaker never trips: such a message
      is left for redelivery. */
  lemma NoMetadataNeverTerminal(cfg: Config, f: Clocks, b: Budget, c: Call)
    requires WellFormed(cfg) && c.msg.meta.None?
    ensures var d := Settled(cfg, f, b, c);
            d.s.outcome.Retried? && d.s.cause.NoCause? && d.ops == [] && !d.s.breakerTripped
    ensures BudgetAfter(cfg, f, b, c) == b
  {
  }
}
