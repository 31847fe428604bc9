/** jsconsumer's Retry as the object it is: a map of failure clocks, a quarantine budget and
    the calls that update them, each tied to the values of RetryCore. */
module RetryObject {
  import opened Basics
  import opened RetryCore
  import F = Floor

  /** A tracked sequence with the time of its last failure, as the sweep sorts them. */
  datatype Aged = Aged(sn: nat, last: int)

  ghost predicate ByAge(s: seq<Aged>) {
    forall i, j :: 0 <= i < j < |s| ==> s[i].last <= s[j].last
  }

  ghost predicate DistinctKeys(s: seq<Aged>) {
    forall i, j :: 0 <= i < j < |s| ==> s[i].sn != s[j].sn
  }

  function Insert(x: Aged, s: seq<Aged>): seq<Aged> {
    if s == [] || x.last <= s[0].last then [x] + s else [s[0]] + Insert(x, s[1..])
  }

  /** The order the sweep evicts in: oldest touched first. */
  function SortByLast(s: seq<Aged>): seq<Aged> {
    if s == [] then [] else Insert(s[0], SortByLast(s[1..]))
  }

  lemma {:induction false} InsertMembers(x: Aged, s: seq<Aged>)
    ensures |Insert(x, s)| == |s| + 1
    ensures forall a :: a in Insert(x, s) <==> a == x || a in s
  {
    if s != [] && x.last > s[0].last {
      InsertMembers(x, s[1..]);
      assert forall a :: a in s <==> a == s[0] || a in s[1..];
    }
  }

  lemma {:induction false} InsertByAge(x: Aged, s: seq<Aged>)
    requires ByAge(s)
    ensures ByAge(Insert(x, s))
  {
    if s != [] && x.last > s[0].last {
      InsertByAge(x, s[1..]);
      InsertMembers(x, s[1..]);
      var rest := Insert(x, s[1..]);
      forall i | 0 <= i < |rest| ensures s[0].last <= rest[i].last {
        assert rest[i] in rest;
      }
    }
  }

  lemma {:induction false} InsertDistinct(x: Aged, s: seq<Aged>)
    requires DistinctKeys(s) && forall a :: a in s ==> a.sn != x.sn
    ensures DistinctKeys(Insert(x, s))
  {
    if s != [] && x.last > s[0].last {
      InsertDistinct(x, s[1..]);
      InsertMembers(x, s[1..]);
      var rest := Insert(x, s[1..]);
      forall i | 0 <= i < |rest| ensures s[0].sn != rest[i].sn {
        assert rest[i] in rest;
      }
    }
  }

  lemma {:induction false} SortByLastSorts(s: seq<Aged>)
    requires DistinctKeys(s)
    ensures ByAge(SortByLast(s)) && DistinctKeys(SortByLast(s)) && |SortByLast(s)| == |s|
    ensures forall a :: a in SortByLast(s) <==> a in s
  {
    if s != [] {
      SortByLastSorts(s[1..]);
      var rest := SortByLast(s[1..]);
      InsertMembers(s[0], rest);
      InsertByAge(s[0], rest);
      InsertDistinct(s[0], rest);
    }
  }

  class Retry {
    const cfg: Config
    const monitor: F.FloorMonitor?
    var failing: Clocks
    var quarantined: int
    var quarantinedFloor: nat
    var haveQuarantined: bool
    /** Requests sent to the broker and settlements reported, over the object's life. */
    var issued: seq<Op>
    var reported: seq<Settlement>

    ghost predicate Valid()
      reads this
    {
      && WellFormed(cfg)
      && |failing| <= MAX_TRACKED
      && (monitor == null <==> cfg.monitorAge.None?)
      && (monitor != null ==> cfg.monitorAge.value == monitor.config.floorAge)
    }

    ghost function QuarantineBudget(): Budget
      reads this
    {
      Budget(haveQuarantined, quarantined, quarantinedFloor)
    }

    constructor (cfg: Config, monitor: F.FloorMonitor?)
      requires WellFormed(cfg)
      requires monitor == null <==> cfg.monitorAge.None?
      requires monitor != null ==> cfg.monitorAge.value == monitor.config.floorAge
      ensures Valid() && this.cfg == cfg && this.monitor == monitor
      ensures failing == map[] && !haveQuarantined && issued == [] && reported == []
    {
      this.cfg, this.monitor := cfg, monitor;
      failing := map[];
      quarantined, quarantinedFloor, haveQuarantined := 0, 0, false;
      issued, reported := [], [];
    }

    method NoteFailure(sn: nat, now: int) returns (failingFor: int)
      requires Valid()
      modifies `failing
      ensures Valid()
      ensures NotedTo(old(failing), sn, now, cfg.failureTTL, failing)
      ensures failingFor == FailingFor(old(failing), sn, now)
    {
      var first := now;
      if sn in failing {
        first := failing[sn].first;
      }
      failing := failing[sn := Record(first, now)];
      assert failing.Keys == old(failing).Keys + {sn};
      if |failing| > MAX_TRACKED {
        SweepFailures(now);
      }
      failingFor := now - first;
    }

    method ForgetFailure(sn: nat)
      requires Valid()
      modifies `failing
      ensures Valid() && failing == old(failing) - {sn}
    {
      failing := failing - {sn};
      assert failing.Keys <= old(failing).Keys;
      CardinalityMonotone(failing.Keys, old(failing).Keys);
    }

    method SweepFailures(now: int)
      modifies `failing
      ensures SweptTo(old(failing), now, cfg.failureTTL, failing)
    {
      ghost var before := failing;
      var pending := failing.Keys;
      while pending != {}
        invariant pending <= before.Keys
        invariant failing == map k | k in before && (k in pending || !Expired(before[k], now, cfg.failureTTL)) :: before[k]
        decreases pending
      {
        var sn :| sn in pending;
        if now - failing[sn].last > cfg.failureTTL {
          failing := failing - {sn};
        }
        pending := pending - {sn};
      }
      assert failing == Live(before, now, cfg.failureTTL);
      if |failing| <= SWEEP_TARGET {
        return;
      }
      EvictOldest();
    }

    /** The second half of the sweep: order the survivors once, then drop the oldest. */
    method EvictOldest()
      requires |failing| > SWEEP_TARGET
      modifies `failing
      ensures failing.Keys <= old(failing).Keys && |failing| == SWEEP_TARGET
      ensures forall k :: k in failing ==> failing[k] == old(failing)[k]
      ensures forall k, j :: k in old(failing) && k !in failing && j in failing ==>
        old(failing)[k].last <= old(failing)[j].last
    {
      ghost var live := failing;
      var all: seq<Aged> := [];
      var pending := failing.Keys;
      while pending != {}
        invariant pending <= failing.Keys && failing == live
        invariant |all| + |pending| == |failing.Keys|
        invariant DistinctKeys(all)
        invariant forall a :: a in all ==> a.sn in failing && a.sn !in pending && a.last == failing[a.sn].last
        invariant forall k :: k in failing && k !in pending ==> Aged(k, failing[k].last) in all
        decreases pending
      {
        var sn :| sn in pending;
        all := all + [Aged(sn, failing[sn].last)];
        pending := pending - {sn};
      }
      SortByLastSorts(all);
      DropPrefix(SortByLast(all), |all| - SWEEP_TARGET);
    }

    method DropPrefix(sorted: seq<Aged>, n: nat)
      requires n < |sorted| == |failing| && ByAge(sorted) && DistinctKeys(sorted)
      requires forall a :: a in sorted ==> a.sn in failing && a.last == failing[a.sn].last
      requires forall k :: k in failing ==> Aged(k, failing[k].last) in sorted
      modifies `failing
      ensures failing.Keys <= old(failing).Keys && |failing| == |sorted| - n
      ensures forall k :: k in failing ==> failing[k] == old(failing)[k]
      ensures forall k, j :: k in old(failing) && k !in failing && j in failing ==>
        old(failing)[k].last <= old(failing)[j].last
    {
      ghost var live := failing;
      var i := 0;
      while i < n
        invariant 0 <= i <= n && |failing| == |live| - i
        invariant failing == live - FirstKeys(sorted, i)
      {
        DropOne(sorted, live, i);
        failing := failing - {sorted[i].sn};
        i := i + 1;
      }
      OldestGone(sorted, live, n);
    }

    static ghost function FirstKeys(sorted: seq<Aged>, i: nat): set<nat>
      requires i <= |sorted|
    {
      set p | 0 <= p < i :: sorted[p].sn
    }

    static lemma DropOne(sorted: seq<Aged>, live: Clocks, i: nat)
      requires i < |sorted| && DistinctKeys(sorted) && sorted[i].sn in live
      ensures live - FirstKeys(sorted, i) - {sorted[i].sn} == live - FirstKeys(sorted, i + 1)
      ensures |live - FirstKeys(sorted, i + 1)| == |live - FirstKeys(sorted, i)| - 1
    {
    }

    static lemma OldestGone(sorted: seq<Aged>, live: Clocks, n: nat)
      requires n < |sorted| && ByAge(sorted)
      requires forall a :: a in sorted ==> a.sn in live && a.last == live[a.sn].last
      requires forall k :: k in live ==> Aged(k, live[k].last) in sorted
      ensures var left := live - FirstKeys(sorted, n);
              forall k, j :: k in live && k !in left && j in left ==> live[k].last <= live[j].last
    {
      var left := live - FirstKeys(sorted, n);
      forall k, j | k in live && k !in left && j in left
        ensures live[k].last <= live[j].last
      {
        OlderThanSurvivors(sorted, live, n, k, j);
      }
    }

    static lemma OlderThanSurvivors(sorted: seq<Aged>, live: Clocks, n: nat, k: nat, j: nat)
      requires n < |sorted| && ByAge(sorted)
      requires forall a :: a in sorted ==> a.sn in live && a.last == live[a.sn].last
      requires k in live && j in live && Aged(j, live[j].last) in sorted
      requires k in FirstKeys(sorted, n) && j !in FirstKeys(sorted, n)
      ensures live[k].last <= live[j].last
    {
    }

    method SpendQuarantineBudget(floor: nat, window: int, now: int) returns (ok: bool)
      modifies `quarantined, `quarantinedFloor, `haveQuarantined
      ensures ok == MayClaim(old(QuarantineBudget()), floor, window, now)
      ensures QuarantineBudget() == if ok then Budget(true, now, floor) else old(QuarantineBudget())
    {
      if haveQuarantined && floor == quarantinedFloor && now - quarantined < window {
        return false;
      }
      haveQuarantined, quarantined, quarantinedFloor := true, now, floor;
      return true;
    }

    method ShouldQuarantine(msg: Msg, delivered: nat, failingFor: int, now: int, stallClock: int)
      returns (ok: bool, stall: F.Stall)
      requires Valid() && delivered == NumDelivered(msg)
      modifies `quarantined, `quarantinedFloor, `haveQuarantined
      ensures Valid()
      ensures stall == if monitor == null then F.Stall(0, 0, false) else F.StallAt(monitor.State(), stallClock)
      ensures ok == Trips(cfg, old(QuarantineBudget()), stall, msg, failingFor, now)
      ensures QuarantineBudget() == Spent(cfg, old(QuarantineBudget()), stall, msg, failingFor, now)
    {
      ok, stall := false, F.Stall(0, 0, false);
      if monitor == null {
        return;
      }
      stall := monitor.FloorStall(stallClock);
      if !stall.stalled || stall.age < monitor.config.floorAge {
        return;
      }
      if msg.meta.None? {
        return;
      }
      if msg.meta.value.streamSeq <= stall.floor {
        return;
      }
      if delivered < cfg.minDeliveries {
        return;
      }
      if failingFor < monitor.config.floorAge {
        return;
      }
      ok := SpendQuarantineBudget(stall.floor, monitor.config.floorAge, now);
    }

    method AwaitRedelivery(s: Settlement) returns (r: Settlement)
      modifies `reported
      ensures r == s.(outcome := Retried) && reported == old(reported) + [r]
    {
      r := s.(outcome := Retried);
      reported := reported + [r];
    }

    method Terminate(msg: Msg, s0: Settlement, publishOk: bool, ackOk: bool)
      returns (s: Settlement, err: SettleError)
      requires Valid() && !s0.captured
      modifies `failing, `issued, `reported
      ensures Valid()
      ensures var d := Terminated(cfg, s0, publishOk, ackOk);
              && s == d.s && err == d.err && issued == old(issued) + d.ops
              && reported == old(reported) + [s]
              && failing == if d.forget then old(failing) - {StreamSeq(msg)} else old(failing)
    {
      s := s0;
      var spent := BrokerCapReached(cfg, s.delivered);
      issued := issued + [Publish(s.cause, publishOk)];
      if !publishOk {
        if spent {
          s := s.(outcome := Stranded);
          reported := reported + [s];
          return s, ErrStranded;
        }
        var waiting := AwaitRedelivery(s);
        return waiting.(cause := s.cause), ErrPublishFailed;
      }
      s := s.(captured := true);
      issued := issued + [DoubleAck(ackOk)];
      assert issued == old(issued) + [Publish(s0.cause, publishOk), DoubleAck(ackOk)];
      if !ackOk {
        s := s.(outcome := if spent then Uncertain else Retried);
        reported := reported + [s];
        return s, if spent then ErrAckUnconfirmed else ErrAckFailed;
      }
      s := s.(outcome := DeadLettered);
      ForgetFailure(StreamSeq(msg));
      reported := reported + [s];
      return s, NoError;
    }

    /** The values a call hands to the specification. */
    ghost function CallOf(msg: Msg, now: int, stallClock: int, cancelled: bool, publishOk: bool, ackOk: bool): Call
      reads this, if monitor == null then {} else {monitor}
    {
      Call(msg, now, if monitor == null then F.Stall(0, 0, false) else F.StallAt(monitor.State(), stallClock),
           cancelled, publishOk, ackOk)
    }

    /** The first half of Settle: note the failure, consult the breaker, draft the report. */
    method Judge(msg: Msg, now: int, stallClock: int, cancelled: bool, ghost c: Call)
      returns (s: Settlement)
      requires Valid() && c.cancelled == cancelled
      requires c == CallOf(msg, now, stallClock, cancelled, c.publishOk, c.ackOk)
      modifies `failing, `quarantined, `quarantinedFloor, `haveQuarantined
      ensures Valid()
      ensures s == Draft(cfg, old(failing), old(QuarantineBudget()), c)
      ensures QuarantineBudget() == BudgetAfter(cfg, old(failing), old(QuarantineBudget()), c)
      ensures if NotesFailure(cfg, c) then NotedTo(old(failing), StreamSeq(msg), now, cfg.failureTTL, failing)
              else failing == old(failing)
    {
      var delivered := NumDelivered(msg);
      var interrupted := cancelled && !BrokerCapReached(cfg, delivered);
      var failingFor, quarantine, stall := 0, false, F.Stall(0, 0, false);
      if monitor == null {
      } else if interrupted {
        stall := monitor.FloorStall(stallClock);
      } else {
        failingFor := NoteFailure(StreamSeq(msg), now);
        quarantine, stall := ShouldQuarantine(msg, delivered, failingFor, now, stallClock);
      }
      s := Settlement(Unset, NoCause, delivered, stall.floor, stall.age, failingFor, quarantine, false);
    }

    /** mid is the failure map between the note and the settlement. */
    method Settle(msg: Msg, now: int, stallClock: int, cancelled: bool, publishOk: bool, ackOk: bool)
      returns (s: Settlement, err: SettleError, ghost mid: Clocks)
      requires Valid()
      modifies this
      ensures Valid()
      ensures var c := old(CallOf(msg, now, stallClock, cancelled, publishOk, ackOk));
              var d := Settled(cfg, old(failing), old(QuarantineBudget()), c);
              && s == d.s && err == d.err && issued == old(issued) + d.ops
              && reported == old(reported) + [s]
              && QuarantineBudget() == BudgetAfter(cfg, old(failing), old(QuarantineBudget()), c)
              && (if NotesFailure(cfg, c) then NotedTo(old(failing), StreamSeq(msg), now, cfg.failureTTL, mid)
                  else mid == old(failing))
              && failing == if d.forget then mid - {StreamSeq(msg)} else mid
    {
      ghost var c := CallOf(msg, now, stallClock, cancelled, publishOk, ackOk);
      var draft := Judge(msg, now, stallClock, cancelled, c);
      mid := failing;
      s, err := Dispose(msg, draft, cancelled && !BrokerCapReached(cfg, draft.delivered), publishOk, ackOk);
    }

    /** The second half of Settle: pick the branch. */
    method Dispose(msg: Msg, draft: Settlement, interrupted: bool, publishOk: bool, ackOk: bool)
      returns (s: Settlement, err: SettleError)
      requires Valid() && !draft.captured
      modifies `failing, `issued, `reported
      ensures Valid()
      ensures var d := Disposed(cfg, draft, interrupted, publishOk, ackOk);
              && s == d.s && err == d.err && issued == old(issued) + d.ops
              && reported == old(reported) + [s]
              && failing == if d.forget then old(failing) - {StreamSeq(msg)} else old(failing)
    {
      s, err := draft, NoError;
      if s.breakerTripped && cfg.mode == Enforce {
        s := s.(cause := FloorAge);
      } else if LadderSpent(cfg, s.delivered) {
        s := s.(cause := Exhausted);
      } else {
        s := AwaitRedelivery(s);
        return;
      }
      if interrupted {
        s := AwaitRedelivery(s.(cause := Shutdown));
        return;
      }
      s, err := Terminate(msg, s, publishOk, ackOk);
    }

    method DeadLetter(msg: Msg, now: int, stallClock: int, publishOk: bool, ackOk: bool)
      returns (s: Settlement, err: SettleError, ghost mid: Clocks)
      requires Valid()
      modifies this
      ensures Valid() && QuarantineBudget() == old(QuarantineBudget())
      ensures var c := old(CallOf(msg, now, stallClock, false, publishOk, ackOk));
              var d := PermanentlyDisposed(cfg, old(failing), c);
              && s == d.s && err == d.err && issued == old(issued) + d.ops
              && reported == old(reported) + [s]
              && (if cfg.monitorAge.Some? then NotedTo(old(failing), StreamSeq(msg), now, cfg.failureTTL, mid)
                  else mid == old(failing))
              && failing == if d.forget then mid - {StreamSeq(msg)} else mid
    {
      var stall, failingFor := F.Stall(0, 0, false), 0;
      if monitor != null {
        stall := monitor.FloorStall(stallClock);
        failingFor := NoteFailure(StreamSeq(msg), now);
      }
      mid := failing;
      s, err := Terminate(msg,
        Settlement(Unset, Permanent, NumDelivered(msg), stall.floor, stall.age, failingFor, false, false),
        publishOk, ackOk);
    }
  }

  lemma CardinalityMonotone<T>(a: set<T>, b: set<T>)
    requires a <= b
    ensures |a| <= |b|
  {
    assert b == a + (b - a);
  }
}
