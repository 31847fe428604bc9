/** One message's life against the broker: at most MaxDeliver deliveries, each left alone,
    settled or explicitly dead-lettered, with every answer of the broker left open. */
module BrokerRuns {
  import opened Basics
  import opened RetryCore
  import F = Floor

  /** One delivery. Lost is a handler that never settles (a crash, an eviction). The other two
      run against an arbitrary state of the Retry object and of its monitor. stored and landed
      are what the broker really did with the publish and the ack; a failed answer says
      nothing about either. */
  datatype Delivery =
    | Lost
    | Settle(c: Call, failing: Clocks, budget: Budget, stored: bool, landed: bool)
    | DeadLetter(c: Call, failing: Clocks, stored: bool, landed: bool)

  function DispositionOf(cfg: Config, d: Delivery): Disposition
    requires !d.Lost?
  {
    if d.Settle? then Settled(cfg, d.failing, d.budget, d.c)
    else PermanentlyDisposed(cfg, d.failing, d.c)
  }

  function OpsOf(cfg: Config, d: Delivery): seq<Op> {
    if d.Lost? then [] else DispositionOf(cfg, d).ops
  }

  predicate Landed(d: Delivery) { !d.Lost? && d.landed }

  predicate Stored(d: Delivery) { !d.Lost? && d.stored }

  /** The broker's answers are honest in the one direction they promise: a confirmed publish
      is stored and a confirmed ack has landed. What was never asked never happened. */
  ghost predicate Honest(cfg: Config, d: Delivery) {
    var ops := OpsOf(cfg, d);
    && (Publishes(ops, true) ==> Stored(d))
    && (Acks(ops, true) ==> Landed(d))
    && (Stored(d) ==> Publishes(ops, true) || Publishes(ops, false))
    && (Landed(d) ==> Acks(ops, true) || Acks(ops, false))
  }

  /** ds is a run, possibly unfinished: delivery i carries count i+1, an ack that lands ends
      it, and the broker stops at its cap. */
  ghost predicate Run(cfg: Config, ds: seq<Delivery>) {
    && WellFormed(cfg) && |ds| <= cfg.maxDeliver
    && (forall i :: 0 <= i < |ds| ==> Honest(cfg, ds[i]))
    && (forall i :: 0 <= i < |ds| && !ds[i].Lost? ==>
          ds[i].c.msg.meta.Some? && ds[i].c.msg.meta.value.numDelivered == i + 1)
    && (forall i :: 0 <= i < |ds| - 1 ==> !Landed(ds[i]))
  }

  ghost predicate Complete(cfg: Config, ds: seq<Delivery>) {
    Run(cfg, ds) && ds != [] && (|ds| == cfg.maxDeliver || Landed(ds[|ds| - 1]))
  }

  function Copies(ds: seq<Delivery>): nat {
    if ds == [] then 0 else Copies(ds[..|ds| - 1]) + if Stored(ds[|ds| - 1]) then 1 else 0
  }

  ghost function Captures(cfg: Config, ds: seq<Delivery>): nat {
    if ds == [] then 0
    else
      var ops := OpsOf(cfg, ds[|ds| - 1]);
      Captures(cfg, ds[..|ds| - 1]) + if Publishes(ops, true) || Publishes(ops, false) then 1 else 0
  }

  // ---------------------------------------------------------------- never a silent drop

  lemma DeliveryTruthful(cfg: Config, d: Delivery)
    requires WellFormed(cfg) && !d.Lost?
    ensures ReportsTruthfully(cfg, DispositionOf(cfg, d))
  {
    if d.Settle? {
      SettleReportsTruthfully(cfg, d.failing, d.budget, d.c);
    } else {
      DeadLetterReportsTruthfully(cfg, d.failing, d.c);
    }
  }

  lemma LandedIsStored(cfg: Config, d: Delivery)
    requires WellFormed(cfg) && Honest(cfg, d)
    ensures CapturesBeforeAcking(OpsOf(cfg, d)) && (Landed(d) ==> Stored(d))
  {
    if !d.Lost? {
      DeliveryTruthful(cfg, d);
      AckMeansCapture(OpsOf(cfg, d));
    }
  }

  /** In every run, each ack follows a successful publish of the same call, nothing is Naked
      or Termed, and a message whose ack landed has at least one copy in the DLQ. */
  lemma NeverASilentDrop(cfg: Config, ds: seq<Delivery>)
    requires Run(cfg, ds)
    ensures forall i :: 0 <= i < |ds| ==> CapturesBeforeAcking(OpsOf(cfg, ds[i]))
    ensures (exists i :: 0 <= i < |ds| && Landed(ds[i])) ==> Copies(ds) >= 1
  {
    forall i | 0 <= i < |ds|
      ensures CapturesBeforeAcking(OpsOf(cfg, ds[i])) && (Landed(ds[i]) ==> Stored(ds[i]))
    {
      LandedIsStored(cfg, ds[i]);
    }
    LandedLast(cfg, ds);
  }

  /** An ack that lands ends the run, so only the last delivery's can. */
  lemma LandedLast(cfg: Config, ds: seq<Delivery>)
    requires Run(cfg, ds)
    ensures (exists i :: 0 <= i < |ds| && Landed(ds[i])) ==> Landed(ds[|ds| - 1])
  {
  }

  lemma AckMeansCapture(ops: seq<Op>)
    requires CapturesBeforeAcking(ops)
    ensures Acks(ops, true) || Acks(ops, false) ==> Publishes(ops, true)
  {
    if p :| 0 <= p < |ops| && ops[p].DoubleAck? {
      assert ops[p - 1].Publish? && ops[p - 1].ok;
    }
  }

  // ---------------------------------------------------------------- how a run ends

  ghost predicate SettledThroughout(ds: seq<Delivery>) {
    forall i :: 0 <= i < |ds| ==> ds[i].Settle?
  }

  predicate Terminal(o: Outcome) { o.DeadLettered? || o.Stranded? || o.Uncertain? }

  /** A settled delivery below the cap that does not end the run reports Retried; one that
      ends it is terminal unless its confirmation was lost. At the cap it is always terminal. */
  lemma SettledDeliveryOutcome(cfg: Config, d: Delivery)
    requires WellFormed(cfg) && d.Settle? && Honest(cfg, d) && d.c.msg.meta.Some?
    requires 1 <= NumDelivered(d.c.msg) <= cfg.maxDeliver
    ensures var o, n := DispositionOf(cfg, d).s.outcome, NumDelivered(d.c.msg);
            && (Terminal(o) <==> !o.Retried?)
            && (n == cfg.maxDeliver ==> Terminal(o))
            && (n < cfg.maxDeliver && !d.landed ==> o.Retried?)
            && (n < cfg.maxDeliver && d.landed ==> (Terminal(o) <==> d.c.ackOk))
  {
    DeliveryTruthful(cfg, d);
    SettleReportsTruthfully(cfg, d.failing, d.budget, d.c);
  }

  /** A complete run settled on every delivery ends in one of the three terminal outcomes,
      except in exactly one case: below the cap, an ack that landed although its confirmation
      was lost. Every report before the last is Retried, and below the cap. */
  lemma RunsEndTerminallyIff(cfg: Config, ds: seq<Delivery>)
    requires Complete(cfg, ds) && SettledThroughout(ds)
    ensures var last := ds[|ds| - 1];
            Terminal(DispositionOf(cfg, last).s.outcome) <==>
              !(|ds| < cfg.maxDeliver && !last.c.ackOk && last.landed)
    ensures forall i :: 0 <= i < |ds| - 1 ==> DispositionOf(cfg, ds[i]).s.outcome.Retried?
  {
    forall i | 0 <= i < |ds|
      ensures i < |ds| - 1 ==> DispositionOf(cfg, ds[i]).s.outcome.Retried?
    {
      SettledDeliveryOutcome(cfg, ds[i]);
    }
    SettledDeliveryOutcome(cfg, ds[|ds| - 1]);
  }

  const PLAIN := Config(2, 1, 1, 0, 1, None, Observe, HOUR)

  /** The exceptional ending exists: one delivery, captured, acked, confirmation lost. The
      report says Retried and no redelivery ever comes. */
  lemma LostConfirmationEndsRetried()
    ensures var d := Settle(Call(Msg(Some(Meta(7, 1))), 0, F.Stall(0, 0, false), false, true, false),
                            map[], Budget(false, 0, 0), true, true);
            && Complete(PLAIN, [d]) && SettledThroughout([d])
            && DispositionOf(PLAIN, d).s.outcome.Retried? && DispositionOf(PLAIN, d).s.captured
  {
    var d := Settle(Call(Msg(Some(Meta(7, 1))), 0, F.Stall(0, 0, false), false, true, false),
                    map[], Budget(false, 0, 0), true, true);
    SettleReportsTruthfully(PLAIN, d.failing, d.budget, d.c);
    assert Honest(PLAIN, d);
  }

  /** On the cap delivery a capture and ack that both succeed dead-letter the message,
      cancelled or not and whatever earlier deliveries did. */
  lemma CapDeliveryStillCaptures(cfg: Config, ds: seq<Delivery>)
    requires Run(cfg, ds) && |ds| == cfg.maxDeliver && ds[|ds| - 1].Settle?
    requires ds[|ds| - 1].c.publishOk && ds[|ds| - 1].c.ackOk
    ensures DispositionOf(cfg, ds[|ds| - 1]).s.outcome.DeadLettered? && Copies(ds) >= 1
  {
    var last := ds[|ds| - 1];
    SettleReportsTruthfully(cfg, last.failing, last.budget, last.c);
  }

  // ---------------------------------------------------------------- what stranded leaves behind

  /** The report of the settlement that ended the run. */
  ghost predicate EndsStranded(cfg: Config, ds: seq<Delivery>) {
    Complete(cfg, ds) && SettledThroughout(ds) && DispositionOf(cfg, ds[|ds| - 1]).s.outcome.Stranded?
  }

  /** Some settlement before the last reported Captured, its ack failing. */
  ghost predicate CapturedBefore(cfg: Config, ds: seq<Delivery>)
    requires SettledThroughout(ds)
  {
    exists i :: 0 <= i < |ds| - 1 && DispositionOf(cfg, ds[i]).s.captured
  }

  /** Delivery i's publish was reported failed and stored all the same. */
  ghost predicate StoredUnconfirmed(cfg: Config, ds: seq<Delivery>, i: nat)
    requires i < |ds|
  {
    Stored(ds[i]) && !Publishes(OpsOf(cfg, ds[i]), true)
  }

  lemma {:induction false} NoCopiesIff(ds: seq<Delivery>)
    ensures Copies(ds) == 0 <==> forall i :: 0 <= i < |ds| ==> !Stored(ds[i])
  {
    if ds != [] {
      NoCopiesIff(ds[..|ds| - 1]);
      assert forall i :: 0 <= i < |ds| - 1 ==> ds[..|ds| - 1][i] == ds[i];
    }
  }

  /** Stranded speaks of its own call. Over the whole run nothing is in the DLQ if and only if
      no earlier settlement reported Captured and no publish reported failed was stored all the
      same; the original in any case stays unacked. */
  lemma StrandedMeansNoCopyIff(cfg: Config, ds: seq<Delivery>)
    requires EndsStranded(cfg, ds)
    ensures Copies(ds) == 0 <==>
      !CapturedBefore(cfg, ds) && forall i :: 0 <= i < |ds| ==> !StoredUnconfirmed(cfg, ds, i)
    ensures |ds| == cfg.maxDeliver && forall i :: 0 <= i < |ds| ==> !Landed(ds[i])
  {
    NoCopiesIff(ds);
    forall i | 0 <= i < |ds|
      ensures DispositionOf(cfg, ds[i]).s.captured <==> Publishes(OpsOf(cfg, ds[i]), true)
      ensures Stored(ds[i]) <==> DispositionOf(cfg, ds[i]).s.captured || StoredUnconfirmed(cfg, ds, i)
    {
      DeliveryTruthful(cfg, ds[i]);
    }
    StrandedNeverAcked(cfg, ds[|ds| - 1]);
  }

  lemma StrandedNeverAcked(cfg: Config, d: Delivery)
    requires WellFormed(cfg) && d.Settle? && Honest(cfg, d) && DispositionOf(cfg, d).s.outcome.Stranded?
    ensures !Landed(d) && !DispositionOf(cfg, d).s.captured && BrokerCapReached(cfg, NumDelivered(d.c.msg))
  {
    DeliveryTruthful(cfg, d);
    AckMeansCapture(OpsOf(cfg, d));
  }

  /** Both ways a stranded message has a copy: delivery 1 captured and its ack was lost, or
      the one failed publish was stored. The cap delivery could not capture in either. */
  lemma StrandedWithACopy(unconfirmed: bool)
    ensures var ds := StrandedRun(unconfirmed);
            && EndsStranded(PLAIN, ds) && Copies(ds) == 1
            && (CapturedBefore(PLAIN, ds) <==> !unconfirmed)
  {
    var ds := StrandedRun(unconfirmed);
    SettleReportsTruthfully(PLAIN, ds[0].failing, ds[0].budget, ds[0].c);
    SettleReportsTruthfully(PLAIN, ds[1].failing, ds[1].budget, ds[1].c);
    assert ds[..1] == [ds[0]] && [ds[0]][..0] == [];
    assert Copies(ds[..1]) == if unconfirmed then 0 else 1;
    assert DispositionOf(PLAIN, ds[0]).s.captured <==> !unconfirmed;
  }

  function StrandedRun(unconfirmed: bool): (ds: seq<Delivery>)
    ensures |ds| == 2
  {
    var first := Call(Msg(Some(Meta(7, 1))), 0, F.Stall(0, 0, false), false, !unconfirmed, false);
    var last := Call(Msg(Some(Meta(7, 2))), 0, F.Stall(0, 0, false), false, false, false);
    [Settle(first, map[], Budget(false, 0, 0), !unconfirmed, false),
     Settle(last, map[], Budget(false, 0, 0), unconfirmed, false)]
  }

  // ---------------------------------------------------------------- duplicates

  lemma DeliveryCaptures(cfg: Config, d: Delivery)
    requires WellFormed(cfg) && cfg.mode.Observe? && Honest(cfg, d) && !d.DeadLetter?
    ensures var ops := OpsOf(cfg, d);
            && (Stored(d) ==> Publishes(ops, true) || Publishes(ops, false))
            && (Publishes(ops, true) || Publishes(ops, false) ==>
                  d.Settle? && NumDelivered(d.c.msg) >= cfg.maxDeliver - cfg.captureReserve)
  {
  }

  /** Without an enforcing breaker or an explicit DeadLetter, a message is published to the
      DLQ at most CaptureReserve + 1 times, so at most that many copies exist. */
  lemma {:induction false} DuplicatesBounded(cfg: Config, ds: seq<Delivery>)
    requires Run(cfg, ds) && cfg.mode.Observe?
    requires forall i :: 0 <= i < |ds| ==> !ds[i].DeadLetter?
    ensures Copies(ds) <= Captures(cfg, ds) <= Max(0, |ds| - (cfg.maxDeliver - cfg.captureReserve) + 1)
    ensures Captures(cfg, ds) <= cfg.captureReserve + 1
  {
    if ds != [] {
      var n := |ds| - 1;
      DuplicatesBounded(cfg, ds[..n]);
      DeliveryCaptures(cfg, ds[n]);
    }
  }
}
