/** jsconsumer's FloorMonitor: the stall clock over readings of a durable's ack floor. */
module Floor {
  import opened Basics

  const SECOND: int := 1_000_000_000
  const DEFAULT_FLOOR_AGE: int := 900 * SECOND
  const MIN_FLOOR_POLL: int := SECOND
  const MAX_FLOOR_POLL: int := 30 * SECOND

  // ---------------------------------------------------------------- construction

  datatype MonitorConfig = MonitorConfig(floorAge: Int64, poll: Int64)

  function PollInterval(c: MonitorConfig): int {
    if c.poll > 0 then c.poll
    else Max(MIN_FLOOR_POLL, Min(c.floorAge / 10, MAX_FLOOR_POLL))
  }

  datatype MonitorResult = Accepted(config: MonitorConfig) | AgeNegative | PollNegative | PollTooLong

  function NewFloorMonitor(c: MonitorConfig): MonitorResult {
    if c.floorAge < 0 then AgeNegative
    else
      var c' := if c.floorAge == 0 then c.(floorAge := DEFAULT_FLOOR_AGE) else c;
      if c.poll < 0 then PollNegative
      else if PollInterval(c') >= c'.floorAge then PollTooLong
      else Accepted(c')
  }

  /** Accepted exactly when the threshold can be sampled; an accepted monitor polls at least
      once inside every threshold, at the interval it was given or at a tenth of the threshold
      held between one and thirty seconds. With no interval given, the one-second minimum makes every
      threshold of a second or less unacceptable. */
  lemma AcceptedMonitorSamples(c: MonitorConfig)
    ensures NewFloorMonitor(c).Accepted? <==>
            && c.floorAge >= 0 && c.poll >= 0
            && var age := if c.floorAge == 0 then 900_000_000_000 else c.floorAge;
               (if c.poll == 0 then age > 1_000_000_000 else c.poll < age)
    ensures NewFloorMonitor(c).Accepted? ==>
            var a := NewFloorMonitor(c).config;
            && 0 < PollInterval(a) < a.floorAge
            && a.floorAge == (if c.floorAge == 0 then 900_000_000_000 else c.floorAge) && a.poll == c.poll
            && PollInterval(a) == (if c.poll > 0 then c.poll
                                   else if a.floorAge < 10_000_000_000 then 1_000_000_000
                                   else if a.floorAge > 300_000_000_000 then 30_000_000_000
                                   else a.floorAge / 10)
  {
  }

  // ---------------------------------------------------------------- the stall clock

  datatype Reading = Reading(floor: nat, delivered: nat, at: int)

  /** Work has been delivered past the floor and not settled. */
  predicate Blocked(r: Reading) { r.floor < r.delivered }

  datatype MonState = MonState(stalled: bool, floor: nat, floorSince: int, stallLogged: bool)

  const FRESH := MonState(false, 0, 0, false)

  function Observe(m: MonState, r: Reading): MonState {
    if !Blocked(r) then MonState(false, r.floor, m.floorSince, false)
    else if m.stalled && m.floor == r.floor then m
    else MonState(true, r.floor, r.at, false)
  }

  datatype Stall = Stall(floor: nat, age: int, stalled: bool)

  function StallAt(m: MonState, now: int): Stall {
    if m.stalled then Stall(m.floor, now - m.floorSince, true) else Stall(m.floor, 0, false)
  }

  function ObserveAll(rs: seq<Reading>): MonState {
    if rs == [] then FRESH else Observe(ObserveAll(rs[..|rs| - 1]), rs[|rs| - 1])
  }

  /** Every reading from k on is blocked at one and the same floor. */
  ghost predicate UnbrokenFrom(rs: seq<Reading>, k: nat) {
    && k < |rs|
    && forall i :: k <= i < |rs| ==> Blocked(rs[i]) && rs[i].floor == rs[k].floor
  }

  /** The clock means what it says, over every stream of readings: stalled exactly when the
      last reading is blocked, and running since the first reading of the longest unbroken
      run that ends there. */
  lemma {:induction false} StallClockMeaning(rs: seq<Reading>) returns (k: nat)
    requires rs != []
    ensures var m := ObserveAll(rs);
            && m.floor == rs[|rs| - 1].floor
            && (m.stalled <==> Blocked(rs[|rs| - 1]))
            && (m.stalled ==> UnbrokenFrom(rs, k) && m.floorSince == rs[k].at)
            && (m.stalled && k > 0 ==> !UnbrokenFrom(rs, k - 1))
  {
    var n := |rs| - 1;
    k := n;
    if n > 0 {
      var j := StallClockMeaning(rs[..n]);
      var m := ObserveAll(rs[..n]);
      if Blocked(rs[n]) {
        if m.stalled && m.floor == rs[n].floor {
          k := j;
          if k > 0 && UnbrokenFrom(rs, k - 1) {
            assert UnbrokenFrom(rs[..n], k - 1);
          }
        }
      }
    }
  }

  /** What a caller is told: the floor of the last reading, always; and how long it has been
      stalled there, measured from the reading that began the stall, or zero if it is not. */
  lemma StallAnswer(rs: seq<Reading>, now: int) returns (k: nat)
    requires rs != []
    ensures var a, last := StallAt(ObserveAll(rs), now), rs[|rs| - 1];
            && a.floor == last.floor && (a.stalled <==> last.floor < last.delivered)
            && (!a.stalled ==> a.age == 0)
            && (a.stalled ==> UnbrokenFrom(rs, k) && a.age == now - rs[k].at && (k > 0 ==> !UnbrokenFrom(rs, k - 1)))
  {
    k := StallClockMeaning(rs);
  }

  // ---------------------------------------------------------------- the once-per-stall warning

  /** One successful poll: the reading, and the later clock value its stall is judged at. */
  datatype Poll = Poll(reading: Reading, now: int)

  function PollStep(m: MonState, p: Poll, floorAge: int): (MonState, bool) {
    var seen := Observe(m, p.reading);
    if seen.stalled && p.now - seen.floorSince >= floorAge
    then (seen.(stallLogged := true), !seen.stallLogged)
    else (seen, false)
  }

  function AfterPolls(ps: seq<Poll>, floorAge: int): MonState {
    if ps == [] then FRESH
    else PollStep(AfterPolls(ps[..|ps| - 1], floorAge), ps[|ps| - 1], floorAge).0
  }

  /** Poll i logged a warning. */
  predicate WarnedAt(ps: seq<Poll>, floorAge: int, i: nat)
    requires i < |ps|
  {
    PollStep(AfterPolls(ps[..i], floorAge), ps[i], floorAge).1
  }

  /** Poll m continues the stall that poll i saw. */
  predicate SameStall(ps: seq<Poll>, i: nat, m: nat)
    requires i < |ps| && m < |ps|
  {
    Blocked(ps[m].reading) && ps[m].reading.floor == ps[i].reading.floor
  }

  lemma {:induction false} LoggedStays(ps: seq<Poll>, floorAge: int, i: nat)
    requires i < |ps| && WarnedAt(ps, floorAge, i)
    requires forall m :: i < m < |ps| ==> SameStall(ps, i, m)
    ensures var s := AfterPolls(ps, floorAge);
            s.stallLogged && s.stalled && s.floor == ps[i].reading.floor
  {
    var n := |ps| - 1;
    assert ps[..n][..i] == ps[..i];
    if i < n {
      assert forall m :: i < m < n ==> SameStall(ps, i, m) ==> SameStall(ps[..n], i, m);
      LoggedStays(ps[..n], floorAge, i);
      assert SameStall(ps, i, n);
    }
  }

  /** Two warnings are always about two different stalls: between them some poll saw the
      consumer caught up or the floor moved. */
  lemma WarnsOncePerStall(ps: seq<Poll>, floorAge: int, i: nat, j: nat)
    requires i < j < |ps| && WarnedAt(ps, floorAge, i) && WarnedAt(ps, floorAge, j)
    ensures exists m :: i < m <= j && !SameStall(ps, i, m)
  {
    if forall m :: i < m <= j ==> SameStall(ps, i, m) {
      assert SameStall(ps, i, j);
      assert ps[..j][..i] == ps[..i];
      assert forall m :: i < m < j ==> SameStall(ps, i, m) ==> SameStall(ps[..j], i, m);
      LoggedStays(ps[..j], floorAge, i);
    }
  }

  lemma {:induction false} LoggedWasWarned(ps: seq<Poll>, floorAge: int) returns (i: nat)
    requires AfterPolls(ps, floorAge).stallLogged
    ensures AfterPolls(ps, floorAge).stalled
    ensures i < |ps| && WarnedAt(ps, floorAge, i)
    ensures AfterPolls(ps, floorAge).floor == ps[i].reading.floor
    ensures forall m :: i < m < |ps| ==> SameStall(ps, i, m)
  {
    var n := |ps| - 1;
    if AfterPolls(ps[..n], floorAge).stallLogged && !WarnedAt(ps, floorAge, n) {
      i := LoggedWasWarned(ps[..n], floorAge);
      assert ps[..n][..i] == ps[..i];
      assert forall m :: i < m < n ==> SameStall(ps[..n], i, m) ==> SameStall(ps, i, m);
    } else {
      i := n;
    }
  }

  /** And no stall past the threshold goes unreported: by the end of the poll that sees one,
      some poll of that same stall has warned. */
  lemma StallIsReported(ps: seq<Poll>, floorAge: int) returns (i: nat)
    requires ps != []
    requires var s := StallAt(AfterPolls(ps, floorAge), ps[|ps| - 1].now); s.stalled && s.age >= floorAge
    ensures i < |ps| && WarnedAt(ps, floorAge, i)
    ensures forall m :: i < m < |ps| ==> SameStall(ps, i, m)
  {
    i := LoggedWasWarned(ps, floorAge);
  }

  /** Polls k to i all see one stall, which poll k is the first to see. */
  ghost predicate OneStall(ps: seq<Poll>, k: nat, i: nat) {
    && k <= i < |ps|
    && (forall m :: k <= m <= i ==> Blocked(ps[m].reading) && ps[m].reading.floor == ps[k].reading.floor)
    && (k > 0 ==> !Blocked(ps[k - 1].reading) || ps[k - 1].reading.floor != ps[k].reading.floor)
  }

  lemma LastPollSeen(ps: seq<Poll>, floorAge: int)
    requires ps != []
    ensures var s, r := AfterPolls(ps, floorAge), ps[|ps| - 1].reading; (s.stalled <==> Blocked(r)) && s.floor == r.floor
  {
  }

  ghost predicate WarnedIn(ps: seq<Poll>, floorAge: int, k: nat, i: nat)
    requires i <= |ps|
  {
    exists m :: k <= m < i && WarnedAt(ps, floorAge, m)
  }

  lemma {:induction false} StallRemembered(ps: seq<Poll>, floorAge: int, k: nat, i: nat)
    requires OneStall(ps, k, i)
    ensures var s := Observe(AfterPolls(ps[..i], floorAge), ps[i].reading);
            && s.stalled && s.floorSince == ps[k].reading.at
            && (s.stallLogged <==> WarnedIn(ps, floorAge, k, i))
  {
    if i > 0 {
      assert ps[..i][..i - 1] == ps[..i - 1];
      LastPollSeen(ps[..i], floorAge);
    }
    if k < i {
      StallRemembered(ps, floorAge, k, i - 1);
      assert WarnedIn(ps, floorAge, k, i) <==> WarnedIn(ps, floorAge, k, i - 1) || WarnedAt(ps, floorAge, i - 1);
    }
  }

  /** Exactly when a poll warns: it sees a stall, the stall has lasted the threshold since the
      poll that first saw it, and no earlier poll has warned of it. */
  lemma WarnsExactlyWhen(ps: seq<Poll>, floorAge: int, k: nat, i: nat)
    requires OneStall(ps, k, i)
    ensures WarnedAt(ps, floorAge, i) <==>
      ps[i].now - ps[k].reading.at >= floorAge && forall m :: k <= m < i ==> !WarnedAt(ps, floorAge, m)
  {
    StallRemembered(ps, floorAge, k, i);
  }

  lemma NoWarningWithoutAStall(ps: seq<Poll>, floorAge: int, i: nat)
    requires i < |ps| && WarnedAt(ps, floorAge, i)
    ensures Blocked(ps[i].reading)
  {
  }

  // ---------------------------------------------------------------- the poll counters

  /** How many poll loops are running, and the most that ever were at once. */
  datatype Polls = Polls(live: int, most: int)

  const NO_POLLS := Polls(0, 0)

  function Entered(p: Polls): Polls { Polls(p.live + 1, Max(p.most, p.live + 1)) }

  function Left(p: Polls): Polls { p.(live := p.live - 1) }

  /** A poll loop begins (true) or ends (false), in any order. */
  function CountPolls(es: seq<bool>): Polls {
    if es == [] then NO_POLLS
    else
      var p := CountPolls(es[..|es| - 1]);
      if es[|es| - 1] then Entered(p) else Left(p)
  }

  /** Loops begun and not ended among the first n events. */
  function Running(es: seq<bool>, n: nat): int
    requires n <= |es|
  {
    if n == 0 then 0 else Running(es, n - 1) + if es[n - 1] then 1 else -1
  }

  lemma {:induction false} RunningPrefix(es: seq<bool>, m: nat, n: nat)
    requires n <= m <= |es|
    ensures Running(es[..m], n) == Running(es, n)
  {
    if n > 0 {
      RunningPrefix(es, m, n - 1);
    }
  }

  /** Over every history of poll loops the counters mean what they say: live is how many are
      running now, and most is how many were running at the busiest moment, m. */
  lemma {:induction false} MostPollsIsHighWater(es: seq<bool>) returns (m: nat)
    ensures CountPolls(es).live == Running(es, |es|)
    ensures m <= |es| && CountPolls(es).most == Running(es, m)
    ensures forall k :: 0 <= k <= |es| ==> Running(es, k) <= CountPolls(es).most
  {
    m := 0;
    if es != [] {
      var n := |es| - 1;
      m := MostPollsIsHighWater(es[..n]);
      forall k | 0 <= k <= n ensures Running(es[..n], k) == Running(es, k) {
        RunningPrefix(es, n, k);
      }
      if CountPolls(es).most != CountPolls(es[..n]).most {
        m := |es|;
      }
    }
  }

  // ---------------------------------------------------------------- the monitor itself

  class FloorMonitor {
    const config: MonitorConfig
    var stalled: bool
    var floor: nat
    var floorSince: int
    var stallLogged: bool
    var polls: int
    var maxPolls: int

    ghost function State(): MonState
      reads this
    {
      MonState(stalled, floor, floorSince, stallLogged)
    }

    ghost function Counters(): Polls
      reads this
    {
      Polls(polls, maxPolls)
    }

    constructor (config: MonitorConfig)
      ensures this.config == config && State() == FRESH && Counters() == NO_POLLS
    {
      this.config := config;
      stalled, floor, floorSince, stallLogged := false, 0, 0, false;
      polls, maxPolls := 0, 0;
    }

    method FloorStall(now: int) returns (s: Stall)
      ensures s == StallAt(State(), now)
    {
      if !stalled {
        return Stall(floor, 0, false);
      }
      return Stall(floor, now - floorSince, true);
    }

    method ObserveFloor(r: Reading)
      modifies `stalled, `floor, `floorSince, `stallLogged
      ensures State() == Observe(old(State()), r)
    {
      var caughtUp := r.delivered <= r.floor;
      var sameStall := stalled && floor == r.floor;
      floor := r.floor;
      if caughtUp {
        stalled := false;
      } else if sameStall {
        return;
      } else {
        stalled := true;
        floorSince := r.at;
      }
      stallLogged := false;
    }

    /** A failed consumer-info request reads nothing and changes nothing. */
    method PollOnce(info: Option<Reading>, now: int) returns (warned: bool)
      modifies `stalled, `floor, `floorSince, `stallLogged
      ensures info.None? ==> !warned && State() == old(State())
      ensures info.Some? ==> (State(), warned) == PollStep(old(State()), Poll(info.value, now), config.floorAge)
    {
      warned := false;
      if info.None? {
        return;
      }
      ObserveFloor(info.value);
      var s := FloorStall(now);
      if !s.stalled || s.age < config.floorAge {
        return;
      }
      warned := !stallLogged;
      stallLogged := true;
    }

    method EnterPoll()
      modifies `polls, `maxPolls
      ensures Counters() == Entered(old(Counters()))
    {
      polls := polls + 1;
      maxPolls := Max(maxPolls, polls);
    }

    method LeavePoll()
      modifies `polls
      ensures Counters() == Left(old(Counters()))
    {
      polls := polls - 1;
    }
  }
}
