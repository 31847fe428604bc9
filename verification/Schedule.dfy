/** The redelivery ladder: backoff.Policy's delays and jsconsumer's Schedule arithmetic. */
module Schedules {
  import opened Basics

  const UNLIMITED_MAX_DELIVER: int := -1

  // ---------------------------------------------------------------- the client ladder

  /** x * f^k. */
  function Grown(x: real, f: real, k: nat): real {
    if k == 0 then x else f * Grown(x, f, k - 1)
  }

  /** Go's float-to-integer conversion: towards zero. */
  function Trunc(d: real): int {
    if d >= 0.0 then d.Floor else -((-d).Floor)
  }

  /** The grown delay d under the policy's cap, saturated into a duration. */
  function Capped(maxDelay: Int64, d: real): Int64 {
    if maxDelay > 0 && d >= maxDelay as real then maxDelay
    else if d >= MAX64 as real then MAX64
    else if d <= MIN64 as real then MIN64
    else Trunc(d)
  }

  datatype Policy = Policy(nakDelay: Int64, factor: real, maxDelay: Int64)
  {
    /** The delay requested after delivery number n. Growth is over exact reals, with the
        source's cap at maxDelay and its saturation at the largest duration. */
    function DelayFor(n: int): Int64 {
      if factor <= 1.0 || n <= 1 then nakDelay
      else Capped(maxDelay, Grown(nakDelay as real, factor, n - 1))
    }
  }

  lemma {:induction false} GrownMonotone(x: real, f: real, j: nat, k: nat)
    requires x >= 0.0 && f > 1.0 && j <= k
    ensures x <= Grown(x, f, j) <= Grown(x, f, k)
  {
    if k > j {
      GrownMonotone(x, f, j, k - 1);
    } else if j > 0 {
      GrownMonotone(x, f, j - 1, k - 1);
    }
  }

  lemma CappedMonotone(maxDelay: Int64, c: real, d: real)
    requires 0.0 <= c <= d
    ensures 0 <= Capped(maxDelay, c) <= Capped(maxDelay, d)
  {
  }

  lemma DelayForStep(p: Policy, j: int, k: int)
    requires p.nakDelay >= 0 && j <= k
    requires p.maxDelay <= 0 || p.nakDelay <= p.maxDelay || p.factor <= 1.0
    ensures p.nakDelay <= p.DelayFor(j) <= p.DelayFor(k)
  {
    if p.factor > 1.0 && k > 1 {
      var x, a := p.nakDelay as real, if j > 1 then j - 1 else 0;
      GrownMonotone(x, p.factor, a, k - 1);
      CappedMonotone(p.maxDelay, x, Grown(x, p.factor, a));
      CappedMonotone(p.maxDelay, Grown(x, p.factor, a), Grown(x, p.factor, k - 1));
      assert Capped(p.maxDelay, x) == p.nakDelay;
    }
  }

  /** A growing client ladder never shrinks exactly when its first delay is not above the
      cap: DelayFor(1) is NakDelay even where the cap is smaller. */
  lemma DelayForMonotoneIff(p: Policy)
    requires p.nakDelay > 0 && p.factor > 1.0
    ensures (forall j, k :: j <= k ==> p.DelayFor(j) <= p.DelayFor(k))
       <==> (p.maxDelay <= 0 || p.nakDelay <= p.maxDelay)
  {
    if p.maxDelay <= 0 || p.nakDelay <= p.maxDelay {
      forall j, k | j <= k ensures p.DelayFor(j) <= p.DelayFor(k) {
        DelayForStep(p, j, k);
      }
    } else {
      GrownMonotone(p.nakDelay as real, p.factor, 0, 1);
      assert p.DelayFor(2) == p.maxDelay;
      assert p.DelayFor(1) > p.DelayFor(2);
    }
  }

  // ---------------------------------------------------------------- the schedule

  datatype Schedule = Schedule(
    nakDelay: Int64, factor: real, maxDelay: Int64,
    serverBackOff: seq<Int64>,
    maxDeliver: Int64, ackWait: Int64,
    captureReserve: Int64,
    maxTimeToDeadLetter: Int64,
    recoverBy: Int64, floorAge: Int64,
    streamMaxAge: Int64)

  function DeadLetterDelivery(s: Schedule): Int64 {
    Wrap(s.maxDeliver - s.captureReserve)
  }

  /** The wait served before delivery n, from whichever mechanism schedules it. */
  function RungBefore(s: Schedule, n: int): Int64 {
    if n < 2 then 0
    else if |s.serverBackOff| > 0 then s.serverBackOff[Min(n - 2, |s.serverBackOff| - 1)]
    else if s.nakDelay > 0 then Policy(s.nakDelay, s.factor, s.maxDelay).DelayFor(n - 1)
    else s.ackWait
  }

  /** The exact wait served by the time of delivery n, with no bound on its size. */
  ghost function Waited(s: Schedule, n: int): int
    decreases n
  {
    if n < 2 then 0 else Waited(s, n - 1) + RungBefore(s, n)
  }

  /** The source's accumulator loop: int64 additions, so what it returns is the exact sum
      wrapped. */
  method CumulativeTo(s: Schedule, n: int) returns (total: Int64)
    ensures total == Wrap(Waited(s, n))
  {
    total := 0;
    var i := 2;
    while i <= n
      invariant 2 <= i && (i <= n + 1 || i == 2)
      invariant total == Wrap(Waited(s, i - 1))
    {
      WrapAdd(Waited(s, i - 1), RungBefore(s, i));
      total := Wrap(total + RungBefore(s, i));
      i := i + 1;
    }
    if n < 2 {
      assert Waited(s, n) == Waited(s, 1) == 0;
    }
  }

  /** The largest rung served before delivery n or earlier: an upper bound that is attained,
      unless every rung is negative, when it stays at zero. */
  ghost function Longest(s: Schedule, n: int): (r: Int64)
    ensures 0 <= r
    ensures forall i :: 2 <= i <= n ==> RungBefore(s, i) <= r
    ensures r == 0 || exists i :: 2 <= i <= n && RungBefore(s, i) == r
    decreases n
  {
    if n < 2 then 0 else Max(Longest(s, n - 1), RungBefore(s, n))
  }

  method LongestRung(s: Schedule) returns (longest: Int64)
    ensures longest == Longest(s, DeadLetterDelivery(s))
  {
    longest := 0;
    var i := 2;
    while i <= DeadLetterDelivery(s)
      invariant 2 <= i && (i <= DeadLetterDelivery(s) + 1 || i == 2)
      invariant longest == Longest(s, i - 1)
    {
      longest := Max(longest, RungBefore(s, i));
      i := i + 1;
    }
  }

  // ---------------------------------------------------------------- closed form, no overflow

  ghost function Sum(rungs: seq<Int64>): int {
    if rungs == [] then 0 else Sum(rungs[..|rungs| - 1]) + rungs[|rungs| - 1]
  }

  /** A server ladder serves its rungs once each and then repeats the last one. */
  lemma {:induction false} WaitedClosedForm(s: Schedule, n: int)
    requires |s.serverBackOff| > 0 && n >= 1
    ensures var len := |s.serverBackOff|;
            Waited(s, n) == Sum(s.serverBackOff[..Min(n - 1, len)])
                          + Max(0, n - 1 - len) * s.serverBackOff[len - 1]
  {
    var b, len := s.serverBackOff, |s.serverBackOff|;
    if n > 1 {
      WaitedClosedForm(s, n - 1);
      if n - 1 <= len {
        assert b[..n - 1][..n - 2] == b[..n - 2];
      } else {
        calc {
          (n - 1 - len) * b[len - 1];
          (n - 2 - len + 1) * b[len - 1];
          (n - 2 - len) * b[len - 1] + b[len - 1];
        }
      }
    }
  }

  /** With no ladder at all the schedule is AckWait repeated, not zero. */
  lemma {:induction false} WaitedWithoutLadder(s: Schedule, n: int)
    requires s.serverBackOff == [] && s.nakDelay <= 0 && n >= 1
    ensures Waited(s, n) == (n - 1) * s.ackWait
  {
    if n > 1 {
      WaitedWithoutLadder(s, n - 1);
      assert (n - 1) * s.ackWait == (n - 2) * s.ackWait + s.ackWait;
    }
  }

  /** A client ladder starts at its first delay and, capped or not, never shrinks below it;
      a positive cap is never exceeded. */
  lemma ClientLadder(s: Schedule, m: int, n: int)
    requires s.serverBackOff == [] && s.nakDelay > 0 && 2 <= m <= n
    requires s.maxDelay <= 0 || s.nakDelay <= s.maxDelay
    ensures RungBefore(s, 2) == s.nakDelay <= RungBefore(s, m) <= RungBefore(s, n)
    ensures s.maxDelay > 0 ==> RungBefore(s, n) <= s.maxDelay
    ensures s.factor <= 1.0 ==> RungBefore(s, n) == s.nakDelay
  {
    DelayForStep(Policy(s.nakDelay, s.factor, s.maxDelay), m - 1, n - 1);
  }

  /** The capped value lies within one of the grown delay until the cap takes over. */
  lemma CappedMeaning(maxDelay: Int64, d: real)
    requires d >= 0.0
    ensures var cap, c := if maxDelay > 0 then maxDelay else MAX64, Capped(maxDelay, d);
            if d >= cap as real then c == cap else c as real <= d < c as real + 1.0 && c < cap
  {
  }

  lemma TimesStrict(f: real, x: real, y: real)
    requires f > 0.0
    ensures x < y ==> f * x < f * y
    ensures x <= y ==> f * x <= f * y
  {
    assert f * y - f * x == f * (y - x);
  }

  /** For a grown delay g, its capped value a, and the capped value b of fg, f times g. */
  lemma OneRungUp(f: real, g: real, fg: real, a: real, b: real, cap: real)
    requires f > 1.0 && g >= 0.0 && 0.0 <= a && fg == f * g && b <= cap && b <= fg
    requires if g >= cap then a == cap else g < a + 1.0
    ensures b < f * (a + 1.0)
  {
    if g >= cap {
      TimesStrict(a + 1.0, 1.0, f);
    } else {
      TimesStrict(f, g, a + 1.0);
    }
  }

  lemma OneRungDown(f: real, g: real, fg: real, a: real, b: real, cap: real)
    requires f > 1.0 && g >= 0.0 && fg == f * g
    requires g < cap ==> a <= g
    requires if fg >= cap then b == cap else fg < b + 1.0
    ensures b == cap || f * a < b + 1.0
  {
    TimesStrict(f, a, g);
    if g >= cap && g > 0.0 {
      TimesStrict(g, 1.0, f);
    }
  }

  /** What one more factor does to a capped delay. */
  ghost predicate Grows(f: real, cap: real, a: real, b: real) {
    b <= cap && b < f * (a + 1.0) && (b == cap || f * a < b + 1.0)
  }

  /** And what it does to one the conversion has dropped nothing from. */
  ghost predicate GrowsExactly(f: real, cap: real, a: real, b: real) {
    b == cap || (b <= f * a && f * a < b + 1.0)
  }

  function Cap(s: Schedule): Int64 { if s.maxDelay > 0 then s.maxDelay else MAX64 }

  /** r is the grown delay g as the schedule serves it: under the cap, and without the
      fraction the conversion drops. */
  ghost predicate Serves(r: int, g: real, cap: int) {
    0 <= r && if g >= cap as real then r == cap else r as real <= g < r as real + 1.0
  }

  lemma NextServed(f: real, g: real, fg: real, a: int, b: int, cap: int)
    requires f > 1.0 && g >= 0.0 && fg == f * g && Serves(a, g, cap) && Serves(b, fg, cap)
    ensures Grows(f, cap as real, a as real, b as real)
    ensures a as real == g ==> GrowsExactly(f, cap as real, a as real, b as real)
  {
    OneRungUp(f, g, fg, a as real, b as real, cap as real);
    OneRungDown(f, g, fg, a as real, b as real, cap as real);
  }

  /** And it grows: each rung is the factor times the one before, to the nanosecond the
      conversion drops, until the cap (the largest duration where none is set) takes over. */
  lemma ClientLadderGrows(s: Schedule, n: int)
    requires s.serverBackOff == [] && s.nakDelay > 0 && s.factor > 1.0 && n >= 2
    requires s.maxDelay <= 0 || s.nakDelay <= s.maxDelay
    ensures Grows(s.factor, Cap(s) as real, RungBefore(s, n) as real, RungBefore(s, n + 1) as real)
    ensures RungBefore(s, 2) == s.nakDelay
    ensures GrowsExactly(s.factor, Cap(s) as real, s.nakDelay as real, RungBefore(s, 3) as real)
  {
    RungIsCapped(s, n);
    RungIsCapped(s, n + 1);
    RungIsCapped(s, 2);
    RungIsCapped(s, 3);
    GrownServed(s.nakDelay as real, s.factor, n - 2, RungBefore(s, n), RungBefore(s, n + 1), Cap(s));
    GrownServed(s.nakDelay as real, s.factor, 0, RungBefore(s, 2), RungBefore(s, 3), Cap(s));
  }

  lemma GrownServed(x: real, f: real, k: nat, a: int, b: int, cap: int)
    requires x >= 0.0 && f > 1.0 && Serves(a, Grown(x, f, k), cap) && Serves(b, Grown(x, f, k + 1), cap)
    ensures Grows(f, cap as real, a as real, b as real)
    ensures a as real == Grown(x, f, k) ==> GrowsExactly(f, cap as real, a as real, b as real)
  {
    NextGrown(x, f, k);
    NextServed(f, Grown(x, f, k), Grown(x, f, k + 1), a, b, cap);
  }

  lemma NextGrown(x: real, f: real, k: nat)
    requires x >= 0.0 && f > 1.0
    ensures Grown(x, f, k + 1) == f * Grown(x, f, k) && Grown(x, f, k) >= 0.0
  {
    GrownMonotone(x, f, 0, k);
  }

  lemma RungIsCapped(s: Schedule, n: int)
    requires s.serverBackOff == [] && s.nakDelay > 0 && s.factor > 1.0 && n >= 2
    requires s.maxDelay <= 0 || s.nakDelay <= s.maxDelay
    ensures Serves(RungBefore(s, n), Grown(s.nakDelay as real, s.factor, n - 2), Cap(s))
    ensures n == 2 ==> RungBefore(s, n) == s.nakDelay
  {
    var g := Grown(s.nakDelay as real, s.factor, n - 2);
    GrownMonotone(s.nakDelay as real, s.factor, 0, n - 2);
    CappedMeaning(s.maxDelay, g);
    assert RungBefore(s, n) == Capped(s.maxDelay, g);
  }

  ghost predicate RungsNonNegative(s: Schedule) {
    forall i :: 2 <= i ==> 0 <= RungBefore(s, i)
  }

  lemma {:induction false} WaitedMonotone(s: Schedule, m: int, n: int)
    requires RungsNonNegative(s) && m <= n
    ensures 0 <= Waited(s, m) <= Waited(s, n)
    decreases n - m, n
  {
    if m < n {
      WaitedMonotone(s, m, n - 1);
    } else if n >= 2 {
      WaitedMonotone(s, n - 1, n - 1);
    }
  }

  lemma {:induction false} WaitedBounded(s: Schedule, n: int, bound: int)
    requires n >= 1
    requires forall i :: 2 <= i <= n ==> RungBefore(s, i) <= bound
    ensures Waited(s, n) <= (n - 1) * bound
  {
    if n > 1 {
      WaitedBounded(s, n - 1, bound);
      assert (n - 1) * bound == (n - 2) * bound + bound;
    }
  }

  /** If every rung is at most R and (n-1)*R fits, no partial sum overflows: what the loop
      holds after any k <= n deliveries is the exact wait. */
  lemma NoPartialSumOverflows(s: Schedule, n: int, bound: int, k: int)
    requires RungsNonNegative(s) && 1 <= k <= n
    requires forall i :: 2 <= i <= n ==> RungBefore(s, i) <= bound
    requires (n - 1) * bound <= MAX64
    ensures 0 <= Waited(s, k) <= MAX64 && Wrap(Waited(s, k)) == Waited(s, k)
  {
    WaitedBounded(s, n, bound);
    WaitedMonotone(s, k, n);
  }

  // ---------------------------------------------------------------- Validate

  /** What Validate can report, named for the check that reports it. */
  datatype Problem =
    | TwoSchedulers
    | NakDelayNegative
    | MaxDelayMissing
    | RungNotPositive(rung: nat)
    | MaxTimeNegative
    | MaxDeliverBelowUnlimited
    | ReserveNegative
    | ReserveTakesAll
    | TooManyRungs
    | AckWaitDisagrees
    | LadderTooLong
    | LadderOutlivesStream
    | RecoverByNegative
    | RecoverByTooLate
    | RecoveryInsideBreaker
    | BreakerNeverFires
    | RungLongerThanBreaker

  /** Position in the report: most structural first. */
  function Rank(p: Problem): (r: nat) {
    match p
    case TwoSchedulers => 0
    case NakDelayNegative => 1
    case MaxDelayMissing => 2
    case RungNotPositive(_) => 3
    case MaxTimeNegative => 4
    case MaxDeliverBelowUnlimited => 5
    case ReserveNegative => 6
    case ReserveTakesAll => 7
    case TooManyRungs => 8
    case AckWaitDisagrees => 9
    case LadderTooLong => 10
    case LadderOutlivesStream => 11
    case RecoverByNegative => 12
    case RecoverByTooLate => 13
    case RecoveryInsideBreaker => 14
    case BreakerNeverFires => 15
    case RungLongerThanBreaker => 16
  }

  /** The duration checks run only for a schedule that has a terminal branch. */
  predicate HasTerminalBranch(s: Schedule) {
    s.maxDeliver > 0 && DeadLetterDelivery(s) >= 1
  }

  /** The condition each problem names. Sums are the int64 ones the program computes. */
  ghost predicate Holds(s: Schedule, p: Problem) {
    var ttl := Wrap(Waited(s, DeadLetterDelivery(s)));
    match p
    case TwoSchedulers => s.nakDelay > 0 && |s.serverBackOff| > 0
    case NakDelayNegative => s.nakDelay < 0
    case MaxDelayMissing => s.factor > 1.0 && s.maxDelay <= 0
    case RungNotPositive(i) => i < |s.serverBackOff| && s.serverBackOff[i] <= 0
    case MaxTimeNegative => s.maxTimeToDeadLetter < 0
    case MaxDeliverBelowUnlimited => s.maxDeliver < UNLIMITED_MAX_DELIVER
    case ReserveNegative => s.captureReserve < 0
    case ReserveTakesAll => 0 < s.maxDeliver <= s.captureReserve
    case TooManyRungs => 0 < s.maxDeliver < |s.serverBackOff|
    case AckWaitDisagrees => |s.serverBackOff| > 0 && s.ackWait > 0 && s.ackWait != s.serverBackOff[0]
    case LadderTooLong => HasTerminalBranch(s) && 0 < s.maxTimeToDeadLetter < ttl
    case LadderOutlivesStream => HasTerminalBranch(s) && 0 < s.streamMaxAge <= ttl
    case RecoverByNegative => HasTerminalBranch(s) && s.recoverBy < 0
    case RecoverByTooLate => HasTerminalBranch(s) && s.recoverBy > DeadLetterDelivery(s)
    case RecoveryInsideBreaker =>
      HasTerminalBranch(s) && s.floorAge > 0 && 0 < s.recoverBy <= DeadLetterDelivery(s)
      && Wrap(Waited(s, s.recoverBy)) >= s.floorAge
    case BreakerNeverFires => HasTerminalBranch(s) && s.floorAge > 0 && 0 < ttl < s.floorAge
    case RungLongerThanBreaker =>
      HasTerminalBranch(s) && s.floorAge > 0 && Longest(s, DeadLetterDelivery(s)) > s.floorAge
  }

  /** Problems of how long the ladder takes, reported after those of how it is built. */
  predicate OfTiming(p: Problem) {
    p in {LadderTooLong, LadderOutlivesStream, RecoverByNegative, RecoverByTooLate,
          RecoveryInsideBreaker, BreakerNeverFires, RungLongerThanBreaker}
  }

  ghost predicate Coherent(s: Schedule) {
    forall p :: !Holds(s, p)
  }

  ghost predicate Precedes(p: Problem, q: Problem) {
    Rank(p) < Rank(q) || (p.RungNotPositive? && q.RungNotPositive? && p.rung < q.rung)
  }

  /** vs lists exactly the problems of rank below k, in order and once each. */
  ghost predicate ReportsBelow(s: Schedule, vs: seq<Problem>, k: nat) {
    && (forall p :: p in vs <==> Rank(p) < k && Holds(s, p))
    && (forall i, j :: 0 <= i < j < |vs| ==> Precedes(vs[i], vs[j]))
  }

  method Add(s: Schedule, vs: seq<Problem>, condition: bool, p: Problem) returns (vs': seq<Problem>)
    requires !p.RungNotPositive? && condition == Holds(s, p)
    requires ReportsBelow(s, vs, Rank(p))
    ensures ReportsBelow(s, vs', Rank(p) + 1)
  {
    vs' := if condition then vs + [p] else vs;
    forall q ensures q in vs' <==> Rank(q) < Rank(p) + 1 && Holds(s, q) {
      assert q in vs' <==> q in vs || (condition && q == p);
      assert Rank(q) == Rank(p) ==> q == p;
    }
  }

  method AddRungs(s: Schedule, vs: seq<Problem>) returns (vs': seq<Problem>)
    requires ReportsBelow(s, vs, 3)
    ensures ReportsBelow(s, vs', 4)
  {
    vs' := vs;
    var i := 0;
    while i < |s.serverBackOff|
      invariant 0 <= i <= |s.serverBackOff|
      invariant forall p :: p in vs' <==>
        Holds(s, p) && (Rank(p) < 3 || (p.RungNotPositive? && p.rung < i))
      invariant forall j, k :: 0 <= j < k < |vs'| ==> Precedes(vs'[j], vs'[k])
    {
      if s.serverBackOff[i] <= 0 {
        forall j | 0 <= j < |vs'| ensures Precedes(vs'[j], RungNotPositive(i)) {
          assert vs'[j] in vs';
        }
        vs' := vs' + [RungNotPositive(i)];
      }
      i := i + 1;
    }
  }

  /** Skipped checks report nothing, because what they would report does not hold. */
  lemma NothingAbove(s: Schedule, vs: seq<Problem>, k: nat)
    requires ReportsBelow(s, vs, k)
    requires (k == 10 && !HasTerminalBranch(s)) || (k == 14 && s.floorAge <= 0)
    ensures ReportsBelow(s, vs, 17)
  {
  }

  lemma ReportComplete(s: Schedule, vs: seq<Problem>)
    requires ReportsBelow(s, vs, 17)
    ensures forall p :: p in vs <==> Holds(s, p)
    ensures vs == [] <==> Coherent(s)
  {
    if vs != [] {
      assert vs[0] in vs;
    }
  }

  lemma StructureFirst(s: Schedule, vs: seq<Problem>)
    requires ReportsBelow(s, vs, 17)
    ensures forall i, j :: 0 <= i < j < |vs| && OfTiming(vs[i]) ==> OfTiming(vs[j])
  {
    forall i, j | 0 <= i < j < |vs| && OfTiming(vs[i]) ensures OfTiming(vs[j]) {
      assert Precedes(vs[i], vs[j]);
      TimingRanks(vs[i]);
      TimingRanks(vs[j]);
    }
  }

  lemma TimingRanks(p: Problem)
    ensures OfTiming(p) <==> Rank(p) >= 10
  {
  }

  method ValidateLadder(s: Schedule) returns (vs: seq<Problem>)
    ensures ReportsBelow(s, vs, 4)
  {
    vs := [];
    vs := Add(s, vs, s.nakDelay > 0 && |s.serverBackOff| > 0, TwoSchedulers);
    vs := Add(s, vs, s.nakDelay < 0, NakDelayNegative);
    vs := Add(s, vs, s.factor > 1.0 && s.maxDelay <= 0, MaxDelayMissing);
    vs := AddRungs(s, vs);
  }

  method ValidateCaps(s: Schedule, vs0: seq<Problem>) returns (vs: seq<Problem>)
    requires ReportsBelow(s, vs0, 4)
    ensures ReportsBelow(s, vs, 7)
  {
    vs := Add(s, vs0, s.maxTimeToDeadLetter < 0, MaxTimeNegative);
    vs := Add(s, vs, s.maxDeliver < UNLIMITED_MAX_DELIVER, MaxDeliverBelowUnlimited);
    vs := Add(s, vs, s.captureReserve < 0, ReserveNegative);
  }

  method ValidateServer(s: Schedule, vs0: seq<Problem>) returns (vs: seq<Problem>)
    requires ReportsBelow(s, vs0, 7)
    ensures ReportsBelow(s, vs, 10)
  {
    var rungs := |s.serverBackOff|;
    vs := Add(s, vs0, s.maxDeliver > 0 && s.captureReserve >= s.maxDeliver, ReserveTakesAll);
    vs := Add(s, vs, rungs > 0 && s.maxDeliver > 0 && rungs > s.maxDeliver, TooManyRungs);
    vs := Add(s, vs, rungs > 0 && s.ackWait > 0 && s.ackWait != s.serverBackOff[0], AckWaitDisagrees);
  }

  method ValidateDurations(s: Schedule, vs0: seq<Problem>) returns (vs: seq<Problem>)
    requires HasTerminalBranch(s) && ReportsBelow(s, vs0, 10)
    ensures ReportsBelow(s, vs, 17)
  {
    var ttl := CumulativeTo(s, DeadLetterDelivery(s));
    vs := Add(s, vs0, s.maxTimeToDeadLetter > 0 && ttl > s.maxTimeToDeadLetter, LadderTooLong);
    vs := Add(s, vs, s.streamMaxAge > 0 && ttl >= s.streamMaxAge, LadderOutlivesStream);
    vs := Add(s, vs, s.recoverBy < 0, RecoverByNegative);
    vs := Add(s, vs, s.recoverBy > DeadLetterDelivery(s), RecoverByTooLate);
    if s.floorAge > 0 {
      vs := ValidateBreaker(s, vs, ttl);
    } else {
      NothingAbove(s, vs, 14);
    }
  }

  method ValidateBreaker(s: Schedule, vs0: seq<Problem>, ttl: Int64) returns (vs: seq<Problem>)
    requires HasTerminalBranch(s) && s.floorAge > 0 && ReportsBelow(s, vs0, 14)
    requires ttl == Wrap(Waited(s, DeadLetterDelivery(s)))
    ensures ReportsBelow(s, vs, 17)
  {
    var inside := s.recoverBy > 0 && s.recoverBy <= DeadLetterDelivery(s);
    if inside {
      var cum := CumulativeTo(s, s.recoverBy);
      inside := cum >= s.floorAge;
    }
    vs := Add(s, vs0, inside, RecoveryInsideBreaker);
    vs := Add(s, vs, ttl > 0 && s.floorAge > ttl, BreakerNeverFires);
    var rung := LongestRung(s);
    vs := Add(s, vs, rung > s.floorAge, RungLongerThanBreaker);
  }

  /** Every way the schedule does not hang together, most structural first. The report is
      complete, sound and free of repeats; it is empty exactly for a coherent schedule. */
  method Validate(s: Schedule) returns (vs: seq<Problem>)
    ensures forall p :: p in vs <==> Holds(s, p)
    ensures forall i, j :: 0 <= i < j < |vs| ==> Precedes(vs[i], vs[j])
    ensures forall i, j :: 0 <= i < j < |vs| && OfTiming(vs[i]) ==> OfTiming(vs[j])
    ensures vs == [] <==> Coherent(s)
  {
    vs := ValidateLadder(s);
    vs := ValidateCaps(s, vs);
    vs := ValidateServer(s, vs);
    if HasTerminalBranch(s) {
      vs := ValidateDurations(s, vs);
    } else {
      NothingAbove(s, vs, 10);
    }
    ReportComplete(s, vs);
    StructureFirst(s, vs);
  }

  // ---------------------------------------------------------------- what an accepted schedule promises

  /** The timing half of coherence, for a finite cap with d deliveries before the capture. */
  ghost predicate TimingHolds(s: Schedule, d: int) {
    var total := Wrap(Waited(s, d));
    && (s.maxTimeToDeadLetter > 0 ==> total <= s.maxTimeToDeadLetter)
    && (s.streamMaxAge > 0 ==> total < s.streamMaxAge)
    && 0 <= s.recoverBy <= d
    && (s.floorAge > 0 ==>
          && (s.recoverBy > 0 ==> Wrap(Waited(s, s.recoverBy)) < s.floorAge)
          && (total > 0 ==> s.floorAge <= total)
          && (forall n :: 2 <= n <= d ==> RungBefore(s, n) <= s.floorAge))
  }

  /** Acceptance in closed form. One scheduler, whose every rung is a real wait and can be
      served under the cap; an AckWait that is unset or the first wait really served; numbers
      that leave the handler a delivery; and, for a finite cap, the timing. */
  lemma CoherentIff(s: Schedule)
    ensures Coherent(s) <==>
      && (s.nakDelay == 0 || (s.nakDelay > 0 && s.serverBackOff == []))
      && (s.factor > 1.0 ==> s.maxDelay > 0)
      && (forall i :: 0 <= i < |s.serverBackOff| ==> s.serverBackOff[i] > 0)
      && (s.serverBackOff != [] ==> s.ackWait <= 0 || s.ackWait == RungBefore(s, 2))
      && s.maxTimeToDeadLetter >= 0 && s.captureReserve >= 0
      && (s.maxDeliver == -1 || s.maxDeliver == 0
          || (|s.serverBackOff| <= s.maxDeliver && s.captureReserve < s.maxDeliver
              && TimingHolds(s, s.maxDeliver - s.captureReserve)))
  {
    if Coherent(s) {
      CoherentStructure(s);
      if s.maxDeliver > 0 {
        CoherentTiming(s);
      }
    } else {
      var p :| Holds(s, p);
    }
  }

  lemma CoherentStructure(s: Schedule)
    requires Coherent(s)
    ensures s.nakDelay == 0 || (s.nakDelay > 0 && s.serverBackOff == [])
    ensures s.factor > 1.0 ==> s.maxDelay > 0
    ensures forall i :: 0 <= i < |s.serverBackOff| ==> s.serverBackOff[i] > 0
    ensures s.serverBackOff != [] ==> s.ackWait <= 0 || s.ackWait == s.serverBackOff[0]
    ensures s.maxTimeToDeadLetter >= 0 && s.captureReserve >= 0 && s.maxDeliver >= -1
    ensures s.maxDeliver > 0 ==> |s.serverBackOff| <= s.maxDeliver && s.captureReserve < s.maxDeliver
  {
    assert !Holds(s, TwoSchedulers) && !Holds(s, NakDelayNegative) && !Holds(s, MaxDelayMissing);
    forall i | 0 <= i < |s.serverBackOff| ensures s.serverBackOff[i] > 0 {
      assert !Holds(s, RungNotPositive(i));
    }
    assert !Holds(s, AckWaitDisagrees) && !Holds(s, MaxTimeNegative) && !Holds(s, MaxDeliverBelowUnlimited);
    assert !Holds(s, ReserveNegative) && !Holds(s, ReserveTakesAll) && !Holds(s, TooManyRungs);
  }

  lemma CoherentTiming(s: Schedule)
    requires Coherent(s) && s.maxDeliver > 0
    ensures TimingHolds(s, s.maxDeliver - s.captureReserve)
  {
    CoherentTerminalBranch(s);
    assert !Holds(s, LadderTooLong) && !Holds(s, LadderOutlivesStream);
    assert !Holds(s, RecoverByNegative) && !Holds(s, RecoverByTooLate);
    if s.floorAge > 0 {
      CoherentBreaker(s);
    }
  }

  lemma CoherentBreaker(s: Schedule)
    requires Coherent(s) && s.maxDeliver > 0 && s.floorAge > 0
    ensures var d := s.maxDeliver - s.captureReserve;
            && (0 < s.recoverBy <= d ==> Wrap(Waited(s, s.recoverBy)) < s.floorAge)
            && (Wrap(Waited(s, d)) > 0 ==> s.floorAge <= Wrap(Waited(s, d)))
            && (forall n :: 2 <= n <= d ==> RungBefore(s, n) <= s.floorAge)
  {
    CoherentTerminalBranch(s);
    assert !Holds(s, RecoveryInsideBreaker) && !Holds(s, BreakerNeverFires) && !Holds(s, RungLongerThanBreaker);
  }

  lemma CoherentRungs(s: Schedule)
    requires Coherent(s) && s.ackWait >= 0
    ensures RungsNonNegative(s)
  {
    forall i | 2 <= i ensures 0 <= RungBefore(s, i) {
      var b := s.serverBackOff;
      if |b| > 0 {
        assert !Holds(s, RungNotPositive(Min(i - 2, |b| - 1)));
      } else if s.nakDelay > 0 {
        var p := Policy(s.nakDelay, s.factor, s.maxDelay);
        if s.factor > 1.0 && i > 2 {
          GrownMonotone(s.nakDelay as real, s.factor, 0, i - 2);
        }
        assert 0 <= p.DelayFor(i - 1);
      }
    }
  }

  lemma CoherentTerminalBranch(s: Schedule)
    requires Coherent(s) && s.maxDeliver > 0
    ensures 0 <= s.captureReserve < s.maxDeliver
    ensures 1 <= DeadLetterDelivery(s) == s.maxDeliver - s.captureReserve <= s.maxDeliver
  {
    assert !Holds(s, ReserveNegative) && !Holds(s, ReserveTakesAll);
  }

  /** The bounds the validator is for hold of the real wait exactly when that wait fits in
      a duration: past that the int64 sum wraps and the check compares the wrong number. */
  lemma AcceptedBoundIff(s: Schedule)
    requires Coherent(s) && s.maxDeliver > 0 && s.ackWait >= 0
    ensures var ttl := Waited(s, DeadLetterDelivery(s));
            && 0 <= ttl
            && (s.maxTimeToDeadLetter > 0 ==> (ttl <= s.maxTimeToDeadLetter <==> ttl <= MAX64))
            && (s.streamMaxAge > 0 ==> (ttl < s.streamMaxAge <==> ttl <= MAX64))
  {
    CoherentRungs(s);
    CoherentTerminalBranch(s);
    WaitedMonotone(s, 1, DeadLetterDelivery(s));
    assert !Holds(s, LadderTooLong) && !Holds(s, LadderOutlivesStream);
  }

  const CENTURY_RUNG: int := 0x4000_0000_0000_0000

  /** Four rungs of 2^62 nanoseconds sum to 2^64, which wraps to zero. */
  const WRAPPING: Schedule :=
    Schedule(0, 0.0, 0, [CENTURY_RUNG, CENTURY_RUNG, CENTURY_RUNG, CENTURY_RUNG], 6, CENTURY_RUNG, 1, 1, 0, 0, 1)

  /** A schedule the validator accepts against a bound of one nanosecond although it takes
      2^64 nanoseconds to reach the dead-letter branch. */
  lemma OverflowDefeatsTheBound()
    ensures Coherent(WRAPPING)
    ensures Waited(WRAPPING, DeadLetterDelivery(WRAPPING)) == TWO64 > WRAPPING.maxTimeToDeadLetter == 1
  {
    var s := WRAPPING;
    assert DeadLetterDelivery(s) == 5;
    assert Waited(s, 2) == CENTURY_RUNG;
    assert Waited(s, 3) == 2 * CENTURY_RUNG;
    assert Waited(s, 4) == 3 * CENTURY_RUNG;
    assert Waited(s, 5) == TWO64 && Wrap(TWO64) == 0;
    forall p ensures !Holds(s, p) {}
  }

  /** Some delivery at or before the dead-letter one falls inside the breaker's window, at most
      twice the threshold late. It is later than RecoverBy exactly when the wait to RecoverBy
      fits in a duration. */
  lemma BreakerWindow(s: Schedule) returns (n: int)
    requires Coherent(s) && s.floorAge > 0 && s.maxDeliver > 0 && s.ackWait >= 0
    requires 0 < Waited(s, DeadLetterDelivery(s))
    ensures 2 <= n <= DeadLetterDelivery(s)
    ensures s.floorAge <= Waited(s, n) <= s.floorAge + Longest(s, DeadLetterDelivery(s)) <= 2 * s.floorAge
    ensures forall m :: m < n ==> Waited(s, m) < s.floorAge
    ensures s.recoverBy < n <==> Waited(s, s.recoverBy) <= MAX64
  {
    CoherentRungs(s);
    CoherentTerminalBranch(s);
    var last := DeadLetterDelivery(s);
    assert !Holds(s, BreakerNeverFires) && !Holds(s, RungLongerThanBreaker);
    n := 2;
    while Waited(s, n) < s.floorAge
      invariant 2 <= n <= last
      invariant Waited(s, n - 1) < s.floorAge
      decreases last - n
    {
      if n < last {
        n := n + 1;
      } else {
        assert false;
      }
    }
    forall m | m < n ensures Waited(s, m) < s.floorAge {
      WaitedMonotone(s, m, n - 1);
    }
    RecoveryPrecedes(s, n);
  }

  /** n waited out the threshold and was the first to. */
  lemma RecoveryPrecedes(s: Schedule, n: int)
    requires Coherent(s) && s.floorAge > 0 && s.maxDeliver > 0 && s.ackWait >= 0
    requires 1 < n && Waited(s, n) >= s.floorAge && forall m :: m < n ==> Waited(s, m) < s.floorAge
    ensures s.recoverBy < n <==> Waited(s, s.recoverBy) <= MAX64
  {
    if Waited(s, s.recoverBy) <= MAX64 {
      RecoverySafe(s, n);
    }
  }

  lemma RecoverySafe(s: Schedule, n: int)
    requires Coherent(s) && s.floorAge > 0 && s.maxDeliver > 0 && s.ackWait >= 0
    requires Waited(s, s.recoverBy) <= MAX64
    requires 1 < n && Waited(s, n) >= s.floorAge
    ensures s.recoverBy < n
  {
    CoherentRungs(s);
    CoherentTerminalBranch(s);
    assert !Holds(s, RecoveryInsideBreaker) && !Holds(s, RecoverByTooLate);
    if n <= s.recoverBy {
      WaitedMonotone(s, n, s.recoverBy);
    }
  }

  /** No delivery up to RecoverBy has waited out the threshold. */
  ghost predicate RecoveryKept(s: Schedule) {
    forall n :: 1 < n && Waited(s, n) >= s.floorAge ==> s.recoverBy < n
  }

  /** When an accepted schedule keeps its RecoverBy promise: exactly when the wait to RecoverBy
      fits in a duration, so that the check compared the number it meant to. */
  lemma RecoveryKeptIff(s: Schedule)
    requires Coherent(s) && s.floorAge > 0 && s.maxDeliver > 0 && s.ackWait >= 0
    ensures RecoveryKept(s) <==> Waited(s, s.recoverBy) <= MAX64
  {
    if Waited(s, s.recoverBy) <= MAX64 {
      forall n | 1 < n && Waited(s, n) >= s.floorAge ensures s.recoverBy < n {
        RecoverySafe(s, n);
      }
    } else {
      assert s.recoverBy > 1 && Waited(s, s.recoverBy) >= s.floorAge;
    }
  }

  /** The same 2^62 rungs with a threshold of one rung: four of them wrap to zero, so RecoverBy
      5 passes although delivery 2 already waits out the threshold. */
  const WRAPPING_RECOVERY: Schedule :=
    Schedule(0, 0.0, 0, [CENTURY_RUNG], 7, CENTURY_RUNG, 1, 0, 5, CENTURY_RUNG, 0)

  lemma OverflowDefeatsRecovery()
    ensures Coherent(WRAPPING_RECOVERY) && !RecoveryKept(WRAPPING_RECOVERY)
    ensures Waited(WRAPPING_RECOVERY, 2) == WRAPPING_RECOVERY.floorAge && 2 < WRAPPING_RECOVERY.recoverBy == 5
  {
    var s := WRAPPING_RECOVERY;
    assert DeadLetterDelivery(s) == 6;
    assert Waited(s, 1) == 0;
    assert Waited(s, 2) == CENTURY_RUNG;
    assert Waited(s, 3) == 2 * CENTURY_RUNG;
    assert Waited(s, 4) == 3 * CENTURY_RUNG;
    assert Waited(s, 5) == TWO64 && Wrap(TWO64) == 0;
    assert Waited(s, 6) == TWO64 + CENTURY_RUNG && Wrap(TWO64 + CENTURY_RUNG) == CENTURY_RUNG;
    forall p ensures !Holds(s, p) {}
  }
}
