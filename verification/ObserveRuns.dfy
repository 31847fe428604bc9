/** BreakerObserve against BreakerEnforce: two Retry objects on the same traffic. */
module ObserveRuns {
  import opened Basics
  import opened RetryCore
  import F = Floor

  /** lands is what becomes of an ack of this delivery whose confirmation is lost. */
  datatype Input = Settle(c: Call, lands: bool) | DeadLetter(c: Call, lands: bool)

  datatype State = State(failing: Clocks, budget: Budget)

  function SeqOf(i: Input): nat { StreamSeq(i.c.msg) }

  predicate Notes(cfg: Config, i: Input) {
    if i.Settle? then NotesFailure(cfg, i.c) else cfg.monitorAge.Some?
  }

  function DispositionOf(cfg: Config, st: State, i: Input): Disposition {
    if i.Settle? then Settled(cfg, st.failing, st.budget, i.c)
    else PermanentlyDisposed(cfg, st.failing, i.c)
  }

  /** The clocks once the failure is noted, when no sweep is due. */
  function AfterNote(cfg: Config, st: State, i: Input): Clocks {
    if Notes(cfg, i) then Noted(st.failing, SeqOf(i), i.c.now) else st.failing
  }

  function Next(cfg: Config, st: State, i: Input): State {
    var noted := AfterNote(cfg, st, i);
    State(if DispositionOf(cfg, st, i).forget then noted - {SeqOf(i)} else noted,
          if i.Settle? then BudgetAfter(cfg, st.failing, st.budget, i.c) else st.budget)
  }

  ghost predicate NoSweep(cfg: Config, st: State, ins: seq<Input>)
    decreases |ins|
  {
    ins != [] ==> |AfterNote(cfg, st, ins[0])| <= MAX_TRACKED && NoSweep(cfg, Next(cfg, st, ins[0]), ins[1..])
  }

  /** The BreakerTripped reports of a run, in order. */
  ghost function TripReports(cfg: Config, st: State, ins: seq<Input>): seq<bool>
    decreases |ins|
  {
    if ins == [] then []
    else [DispositionOf(cfg, st, ins[0]).s.breakerTripped] + TripReports(cfg, Next(cfg, st, ins[0]), ins[1..])
  }

  predicate Tripped(cfg: Config, st: State, i: Input) {
    DispositionOf(cfg, st, i).s.breakerTripped
  }

  /** The breaker itself removed this message from the stream. */
  predicate Quarantined(cfg: Config, st: State, i: Input) {
    var s := DispositionOf(cfg, st, i).s;
    s.outcome.DeadLettered? && s.cause.FloorAge?
  }

  /** A trip before the ladder is spent, of a message whose capture succeeds and whose ack then
      lands, confirmed or not: enforcing sees no more of it, observing leaves it on its ladder.
      The mode plays no part, so these are the observing run's own trips. */
  predicate Early(cfg: Config, st: State, i: Input) {
    && i.Settle? && Tripped(cfg, st, i) && i.c.publishOk && (i.c.ackOk || i.lands)
    && !LadderSpent(cfg, NumDelivered(i.c.msg))
  }

  /** And the confirmation arrives, so enforcing reports it dead-lettered and drops its clock. */
  predicate EarlyConfirmed(cfg: Config, st: State, i: Input) {
    Early(cfg, st, i) && i.c.ackOk
  }

  /** Sequences the enforcing run's acks have removed and the observing run's have not. */
  function Leave(cfg: Config, st: State, gone: set<nat>, i: Input): set<nat> {
    if Early(cfg, st, i) then gone + {SeqOf(i)} else gone
  }

  /** Those of them whose clock the enforcing run has dropped. */
  function LeaveConfirmed(cfg: Config, st: State, gone: set<nat>, i: Input): set<nat> {
    if EarlyConfirmed(cfg, st, i) then gone + {SeqOf(i)} else gone
  }

  function After(cfg: Config, st: State, ins: seq<Input>): State
    decreases |ins|
  {
    if ins == [] then st else After(cfg, Next(cfg, st, ins[0]), ins[1..])
  }

  // ---------------------------------------------------------------- one call in both modes

  /** The two runs hold the same budget and the same clocks, but for sequences that are gone. */
  ghost predicate Agree(o: State, e: State, gone: set<nat>) {
    o.budget == e.budget && e.failing - gone == o.failing - gone
  }

  /** From one draft, enforcing drops a clock whenever observing does, and otherwise exactly
      where an early trip is captured and acked. */
  lemma ModesCompared(cfg: Config, s: Settlement, interrupted: bool, publishOk: bool, ackOk: bool)
    requires cfg.mode.Enforce? && s.outcome.Unset? && s.cause.NoCause? && (s.breakerTripped ==> !interrupted)
    ensures var o := Disposed(WithMode(cfg, Observe), s, interrupted, publishOk, ackOk);
            var e := Disposed(cfg, s, interrupted, publishOk, ackOk);
            && o.s.breakerTripped == e.s.breakerTripped == s.breakerTripped
            && (e.forget <==> o.forget || (s.breakerTripped && publishOk && ackOk && !LadderSpent(cfg, s.delivered)))
            && (o.forget ==> LadderSpent(cfg, s.delivered))
            && (e.s.outcome.DeadLettered? && e.s.cause.FloorAge? <==> s.breakerTripped && publishOk && ackOk)
  {
  }

  lemma SameClock(o: Clocks, e: Clocks, gone: set<nat>, sn: nat)
    requires e - gone == o - gone && sn !in gone
    ensures (sn in o <==> sn in e) && (sn in o ==> o[sn] == e[sn])
  {
    assert sn in o <==> sn in o - gone;
    assert sn in e <==> sn in e - gone;
  }

  lemma SameDraft(cfg: Config, o: State, e: State, gone: set<nat>, i: Input)
    requires Agree(o, e, gone) && SeqOf(i) !in gone && i.Settle?
    ensures Draft(WithMode(cfg, Observe), o.failing, o.budget, i.c) == Draft(cfg, e.failing, e.budget, i.c)
    ensures BudgetAfter(WithMode(cfg, Observe), o.failing, o.budget, i.c) == BudgetAfter(cfg, e.failing, e.budget, i.c)
  {
    SameClock(o.failing, e.failing, gone, SeqOf(i));
  }

  lemma SettleAgrees(cfg: Config, o: State, e: State, gone: set<nat>, i: Input)
    requires cfg.mode.Enforce? && Agree(o, e, gone) && SeqOf(i) !in gone && i.Settle?
    ensures var oc := WithMode(cfg, Observe);
            && Tripped(oc, o, i) == Tripped(cfg, e, i) && Early(oc, o, i) == Early(cfg, e, i)
            && (DispositionOf(cfg, e, i).forget <==> DispositionOf(oc, o, i).forget || EarlyConfirmed(cfg, e, i))
            && (Early(cfg, e, i) ==> !DispositionOf(oc, o, i).forget && Notes(cfg, i))
            && (EarlyConfirmed(cfg, e, i) <==> Quarantined(cfg, e, i) && !LadderSpent(cfg, NumDelivered(i.c.msg)))
  {
    var c, s := i.c, Draft(cfg, e.failing, e.budget, i.c);
    SameDraft(cfg, o, e, gone, i);
    ModesCompared(cfg, s, Interrupted(cfg, c), c.publishOk, c.ackOk);
  }

  /** The broker is asked for an ack of this delivery and it lands, confirmed or not. */
  ghost predicate Removed(cfg: Config, st: State, i: Input) {
    var ops := DispositionOf(cfg, st, i).ops;
    Acks(ops, true) || (Acks(ops, false) && i.lands)
  }

  lemma LastOp(ops: seq<Op>, ok: bool)
    requires |ops| <= 2 && (|ops| > 0 ==> ops[0].Publish?)
    ensures Acks(ops, ok) <==> |ops| == 2 && ops[1] == DoubleAck(ok)
  {
  }

  /** Enforcing asks for an ack whenever observing does, and otherwise exactly on a captured
      trip before the ladder is spent. */
  lemma AcksCompared(cfg: Config, s: Settlement, interrupted: bool, publishOk: bool, ackOk: bool, ok: bool)
    requires cfg.mode.Enforce? && (s.breakerTripped ==> !interrupted)
    ensures var o := Disposed(WithMode(cfg, Observe), s, interrupted, publishOk, ackOk);
            var e := Disposed(cfg, s, interrupted, publishOk, ackOk);
            && (Acks(o.ops, ok) ==> LadderSpent(cfg, s.delivered))
            && var early := s.breakerTripped && !LadderSpent(cfg, s.delivered) && publishOk && ok == ackOk;
               (Acks(e.ops, ok) <==> Acks(o.ops, ok) || early)
  {
    LastOp(Disposed(WithMode(cfg, Observe), s, interrupted, publishOk, ackOk).ops, ok);
    LastOp(Disposed(cfg, s, interrupted, publishOk, ackOk).ops, ok);
  }

  /** Early trips are exactly the calls that take a message from the enforcing run's consumer
      and leave it on the observing run's; none does it the other way round. */
  lemma EarlyIff(cfg: Config, o: State, e: State, gone: set<nat>, i: Input)
    requires cfg.mode.Enforce? && Agree(o, e, gone) && SeqOf(i) !in gone
    ensures Early(cfg, e, i) <==> Removed(cfg, e, i) && !Removed(WithMode(cfg, Observe), o, i)
    ensures Removed(WithMode(cfg, Observe), o, i) ==> Removed(cfg, e, i)
  {
    if i.Settle? {
      var c, s := i.c, Draft(cfg, e.failing, e.budget, i.c);
      SameDraft(cfg, o, e, gone, i);
      AcksCompared(cfg, s, Interrupted(cfg, c), c.publishOk, c.ackOk, true);
      AcksCompared(cfg, s, Interrupted(cfg, c), c.publishOk, c.ackOk, false);
    } else {
      SamePermanent(cfg, o, e, i);
    }
  }

  lemma SamePermanent(cfg: Config, o: State, e: State, i: Input)
    requires i.DeadLetter?
    ensures DispositionOf(WithMode(cfg, Observe), o, i).ops == DispositionOf(cfg, e, i).ops
  {
  }

  lemma DeadLetterAgrees(cfg: Config, o: State, e: State, i: Input)
    requires i.DeadLetter?
    ensures var a, b := DispositionOf(WithMode(cfg, Observe), o, i), DispositionOf(cfg, e, i);
            !a.s.breakerTripped && !b.s.breakerTripped && a.forget == b.forget
  {
  }

  /** One note and at most one deletion on each side keep the clocks in step. */
  lemma ClocksAgree(o: Clocks, e: Clocks, gone: set<nat>, gone': set<nat>, sn: nat, now: int, noted: bool, ofor: bool, efor: bool)
    requires e - gone == o - gone && gone <= gone' <= gone + {sn} && (ofor != efor ==> sn in gone')
    requires sn !in gone
    ensures var o1, e1 := if noted then Noted(o, sn, now) else o, if noted then Noted(e, sn, now) else e;
            var o2, e2 := if ofor then o1 - {sn} else o1, if efor then e1 - {sn} else e1;
            e2 - gone' == o2 - gone'
  {
    var o1, e1 := if noted then Noted(o, sn, now) else o, if noted then Noted(e, sn, now) else e;
    NotedWithout(o, gone, sn, now);
    NotedWithout(e, gone, sn, now);
    WithoutOne(o1, e1, gone, gone', sn, ofor, efor);
  }

  lemma NotedWithout(f: Clocks, gone: set<nat>, sn: nat, now: int)
    requires sn !in gone
    ensures Noted(f, sn, now) - gone == Noted(f - gone, sn, now)
  {
  }

  lemma WithoutOne(o: Clocks, e: Clocks, gone: set<nat>, gone': set<nat>, sn: nat, ofor: bool, efor: bool)
    requires e - gone == o - gone && gone <= gone' <= gone + {sn} && (ofor != efor ==> sn in gone')
    ensures var o2, e2 := if ofor then o - {sn} else o, if efor then e - {sn} else e;
            e2 - gone' == o2 - gone'
  {
    if sn in gone' {
      assert e - gone - {sn} == o - gone - {sn};
      assert forall m: Clocks :: m - gone - {sn} == m - gone' && m - {sn} - gone' == m - gone';
    } else {
      assert gone' == gone;
      assert forall m: Clocks :: m - {sn} - gone == m - gone - {sn};
    }
  }

  lemma SettleStepAgrees(cfg: Config, o: State, e: State, gone: set<nat>, gone': set<nat>, i: Input)
    requires cfg.mode.Enforce? && Agree(o, e, gone) && SeqOf(i) !in gone && i.Settle?
    requires gone <= gone' <= gone + {SeqOf(i)} && (EarlyConfirmed(cfg, e, i) ==> SeqOf(i) in gone')
    ensures Agree(Next(WithMode(cfg, Observe), o, i), Next(cfg, e, i), gone')
  {
    SettleAgrees(cfg, o, e, gone, i);
    SameDraft(cfg, o, e, gone, i);
    ClocksAgree(o.failing, e.failing, gone, gone', SeqOf(i), i.c.now, Notes(cfg, i),
                DispositionOf(WithMode(cfg, Observe), o, i).forget, DispositionOf(cfg, e, i).forget);
  }

  lemma DeadLetterStepAgrees(cfg: Config, o: State, e: State, gone: set<nat>, i: Input)
    requires cfg.mode.Enforce? && Agree(o, e, gone) && SeqOf(i) !in gone && i.DeadLetter?
    ensures Agree(Next(WithMode(cfg, Observe), o, i), Next(cfg, e, i), gone)
  {
    DeadLetterAgrees(cfg, o, e, i);
    var forget := DispositionOf(cfg, e, i).forget;
    ClocksAgree(o.failing, e.failing, gone, gone, SeqOf(i), i.c.now, Notes(cfg, i), forget, forget);
  }

  /** A call on a sequence that is not gone is judged alike, and afterwards the runs agree but
      for a sequence enforcing has just reported dead-lettered early. */
  lemma StepsAgree(cfg: Config, o: State, e: State, gone: set<nat>, gone': set<nat>, i: Input)
    requires cfg.mode.Enforce? && Agree(o, e, gone) && SeqOf(i) !in gone
    requires gone' == Leave(cfg, e, gone, i) || gone' == LeaveConfirmed(cfg, e, gone, i)
    ensures var oc := WithMode(cfg, Observe);
            && Tripped(oc, o, i) == Tripped(cfg, e, i)
            && Early(oc, o, i) == Early(cfg, e, i)
            && Agree(Next(oc, o, i), Next(cfg, e, i), gone')
  {
    if i.Settle? {
      SettleAgrees(cfg, o, e, gone, i);
      SettleStepAgrees(cfg, o, e, gone, gone', i);
    } else {
      DeadLetterAgrees(cfg, o, e, i);
      DeadLetterStepAgrees(cfg, o, e, gone, i);
    }
  }

  /** A call on a sequence that is gone never reaches the enforcing run; unless it trips it
      leaves the agreement alone. */
  lemma SkippedAgrees(oc: Config, o: State, e: State, gone: set<nat>, i: Input)
    requires oc.mode.Observe? && Agree(o, e, gone) && SeqOf(i) in gone && !Tripped(oc, o, i)
    ensures Agree(Next(oc, o, i), e, gone) && Leave(oc, o, gone, i) == gone
  {
    assert Next(oc, o, i).budget == o.budget;
  }

  // ---------------------------------------------------------------- the runs the broker would make

  /** The calls the enforcing run gets of those the observing run gets: a message whose ack has
      landed is not delivered to it again. */
  function Sent(cfg: Config, e: State, gone: set<nat>, ins: seq<Input>): seq<Input>
    decreases |ins|
  {
    if ins == [] then []
    else if SeqOf(ins[0]) in gone then Sent(cfg, e, gone, ins[1..])
    else [ins[0]] + Sent(cfg, Next(cfg, e, ins[0]), Leave(cfg, e, gone, ins[0]), ins[1..])
  }

  /** Its BreakerTripped reports, with false where there was no call to report. */
  ghost function SentReports(cfg: Config, e: State, gone: set<nat>, ins: seq<Input>): seq<bool>
    decreases |ins|
  {
    if ins == [] then []
    else if SeqOf(ins[0]) in gone then [false] + SentReports(cfg, e, gone, ins[1..])
    else [Tripped(cfg, e, ins[0])] + SentReports(cfg, Next(cfg, e, ins[0]), Leave(cfg, e, gone, ins[0]), ins[1..])
  }

  /** Call q trips on a sequence that is gone to begin with or that tripped early before. */
  ghost predicate TripsAgain(cfg: Config, st: State, gone: set<nat>, ins: seq<Input>, q: nat)
    requires q < |ins|
  {
    && Tripped(cfg, After(cfg, st, ins[..q]), ins[q])
    && (SeqOf(ins[q]) in gone
        || exists p :: 0 <= p < q && SeqOf(ins[p]) == SeqOf(ins[q]) && Early(cfg, After(cfg, st, ins[..p]), ins[p]))
  }

  lemma TripsAgainLater(cfg: Config, st: State, gone: set<nat>, ins: seq<Input>, q: nat)
    requires 1 <= q < |ins|
    ensures TripsAgain(cfg, st, gone, ins, q) <==>
      TripsAgain(cfg, Next(cfg, st, ins[0]), Leave(cfg, st, gone, ins[0]), ins[1..], q - 1)
  {
    var st', rest, gone' := Next(cfg, st, ins[0]), ins[1..], Leave(cfg, st, gone, ins[0]);
    forall p | 1 <= p <= q ensures After(cfg, st, ins[..p]) == After(cfg, st', rest[..p - 1]) {
      assert ins[..p][1..] == rest[..p - 1];
    }
    if p :| 0 <= p < q && SeqOf(ins[p]) == SeqOf(ins[q]) && Early(cfg, After(cfg, st, ins[..p]), ins[p]) {
      if p > 0 {
        assert rest[p - 1] == ins[p];
      } else {
        assert ins[..0] == [];
      }
    }
    if p :| 0 <= p < q - 1 && SeqOf(rest[p]) == SeqOf(rest[q - 1]) && Early(cfg, After(cfg, st', rest[..p]), rest[p]) {
      assert ins[p + 1] == rest[p];
    }
    assert After(cfg, st, ins[..0]) == st;
  }

  /** Nothing trips again, call by call. */
  ghost predicate NeverAgain(cfg: Config, st: State, gone: set<nat>, ins: seq<Input>)
    decreases |ins|
  {
    ins != [] ==>
      && !(SeqOf(ins[0]) in gone && Tripped(cfg, st, ins[0]))
      && NeverAgain(cfg, Next(cfg, st, ins[0]), Leave(cfg, st, gone, ins[0]), ins[1..])
  }

  lemma {:induction false} NeverAgainIff(cfg: Config, st: State, gone: set<nat>, ins: seq<Input>)
    ensures NeverAgain(cfg, st, gone, ins) <==> forall q :: 0 <= q < |ins| ==> !TripsAgain(cfg, st, gone, ins, q)
    decreases |ins|
  {
    if ins != [] {
      FirstCall(cfg, st, gone, ins);
      NeverAgainIff(cfg, Next(cfg, st, ins[0]), Leave(cfg, st, gone, ins[0]), ins[1..]);
    }
  }

  /** Nothing trips again in a run exactly when its first call does not and nothing does in
      the rest. */
  lemma FirstCall(cfg: Config, st: State, gone: set<nat>, ins: seq<Input>)
    requires ins != []
    ensures TripsAgain(cfg, st, gone, ins, 0) <==> SeqOf(ins[0]) in gone && Tripped(cfg, st, ins[0])
    ensures (forall q :: 0 <= q < |ins| ==> !TripsAgain(cfg, st, gone, ins, q)) <==>
      && !TripsAgain(cfg, st, gone, ins, 0)
      && forall q :: 0 <= q < |ins| - 1 ==>
           !TripsAgain(cfg, Next(cfg, st, ins[0]), Leave(cfg, st, gone, ins[0]), ins[1..], q)
  {
    assert ins[..0] == [];
    forall q | 1 <= q < |ins|
      ensures TripsAgain(cfg, st, gone, ins, q) <==>
        TripsAgain(cfg, Next(cfg, st, ins[0]), Leave(cfg, st, gone, ins[0]), ins[1..], q - 1)
    {
      TripsAgainLater(cfg, st, gone, ins, q);
    }
    var st', gone', rest := Next(cfg, st, ins[0]), Leave(cfg, st, gone, ins[0]), ins[1..];
    if forall q :: 0 <= q < |ins| ==> !TripsAgain(cfg, st, gone, ins, q) {
      forall q | 0 <= q < |ins| - 1 ensures !TripsAgain(cfg, st', gone', rest, q) {
        assert !TripsAgain(cfg, st, gone, ins, q + 1);
      }
    }
  }

  lemma SameHeads(a: bool, x: seq<bool>, b: bool, y: seq<bool>)
    ensures [a] + x == [b] + y <==> a == b && x == y
  {
    assert ([a] + x)[0] == a && ([b] + y)[0] == b;
    assert ([a] + x)[1..] == x && ([b] + y)[1..] == y;
  }

  lemma {:induction false} ReportsAgreeIff(cfg: Config, o: State, e: State, gone: set<nat>, ins: seq<Input>)
    requires cfg.mode.Enforce? && Agree(o, e, gone)
    ensures TripReports(WithMode(cfg, Observe), o, ins) == SentReports(cfg, e, gone, ins)
       <==> NeverAgain(WithMode(cfg, Observe), o, gone, ins)
    decreases |ins|
  {
    if ins != [] {
      var oc, i, rest := WithMode(cfg, Observe), ins[0], ins[1..];
      if SeqOf(i) !in gone {
        var e', gone' := Next(cfg, e, i), Leave(cfg, e, gone, i);
        StepsAgree(cfg, o, e, gone, gone', i);
        ReportsAgreeIff(cfg, Next(oc, o, i), e', gone', rest);
        SameHeads(Tripped(oc, o, i), TripReports(oc, Next(oc, o, i), rest), Tripped(cfg, e, i), SentReports(cfg, e', gone', rest));
      } else {
        if !Tripped(oc, o, i) {
          SkippedAgrees(oc, o, e, gone, i);
          ReportsAgreeIff(cfg, Next(oc, o, i), e, gone, rest);
        }
        SameHeads(Tripped(oc, o, i), TripReports(oc, Next(oc, o, i), rest), false, SentReports(cfg, e, gone, rest));
      }
    }
  }

  /** When Observe is a faithful dry run, exactly. Of the calls the observing run gets, the
      enforcing run gets all but those on messages its own acks have removed. Call for call the
      two report the same trips if and only if in the observing run no sequence trips again
      after an early trip. (A message whose confirmation was lost keeps its clock in the
      enforcing run, so neither run's freedom from sweeps implies the other's.) */
  lemma DryRunFaithfulIff(cfg: Config, st: State, ins: seq<Input>)
    requires cfg.mode.Enforce?
    requires NoSweep(WithMode(cfg, Observe), st, ins) && NoSweep(cfg, st, Sent(cfg, st, {}, ins))
    ensures var oc := WithMode(cfg, Observe);
            TripReports(oc, st, ins) == SentReports(cfg, st, {}, ins) <==>
              !(exists p, q :: 0 <= p < q < |ins| && SeqOf(ins[p]) == SeqOf(ins[q])
                  && Early(oc, After(oc, st, ins[..p]), ins[p]) && Tripped(oc, After(oc, st, ins[..q]), ins[q]))
  {
    ReportsAgreeIff(cfg, st, st, {}, ins);
    var oc := WithMode(cfg, Observe);
    NeverAgainIff(oc, st, {}, ins);
    if p, q :|
      0 <= p < q < |ins| && SeqOf(ins[p]) == SeqOf(ins[q])
      && Early(oc, After(oc, st, ins[..p]), ins[p]) && Tripped(oc, After(oc, st, ins[..q]), ins[q])
    {
      assert TripsAgain(oc, st, {}, ins, q);
    }
  }

  /** And the exception is always at hand. Whatever the state, after any early trip the very
      next delivery of that message, failing one FloorAge later under the same stall, trips
      again for observing and never reaches enforcing. */
  lemma EarlyTripsCanRepeat(cfg: Config, st: State, i: Input) returns (j: Input)
    requires WellFormed(cfg) && cfg.mode.Enforce? && cfg.monitorAge.value > 0 && Early(cfg, st, i)
    ensures SeqOf(j) == SeqOf(i) && NumDelivered(j.c.msg) == NumDelivered(i.c.msg) + 1 <= cfg.maxDeliver
    ensures j.c.now == i.c.now + cfg.monitorAge.value && j.c.stall.floor == i.c.stall.floor
    ensures TripReports(WithMode(cfg, Observe), st, [i, j]) == [true, true]
    ensures SentReports(cfg, st, {}, [i, j]) == [true, false]
  {
    var oc, age := WithMode(cfg, Observe), cfg.monitorAge.value;
    j := Settle(Call(Msg(Some(Meta(SeqOf(i), NumDelivered(i.c.msg) + 1))), i.c.now + age,
                     i.c.stall.(age := i.c.stall.age + age), false, true, true), true);
    SettleAgrees(cfg, st, st, {}, i);
    var st' := Next(oc, st, i);
    assert st'.budget == Budget(true, i.c.now, i.c.stall.floor);
    assert Tripped(oc, st', j);
    assert [i, j][1..] == [j] && [j][1..] == [];
    assert TripReports(oc, st', [j]) == [true];
    assert Leave(cfg, st, {}, i) == {SeqOf(i)};
    assert SentReports(cfg, Next(cfg, st, i), {SeqOf(i)}, [j]) == [false];
  }

  // ---------------------------------------------------------------- the same calls fed to both

  function Gone(cfg: Config, st: State, gone: set<nat>, ins: seq<Input>): set<nat>
    decreases |ins|
  {
    if ins == [] then gone
    else Gone(cfg, Next(cfg, st, ins[0]), LeaveConfirmed(cfg, st, gone, ins[0]), ins[1..])
  }

  /** No sequence comes back once it has been reported dead-lettered early. */
  ghost predicate NoRecurrence(cfg: Config, st: State, ins: seq<Input>)
    decreases |ins|
  {
    ins != [] ==>
      && (EarlyConfirmed(cfg, st, ins[0]) ==> forall j :: 1 <= j < |ins| ==> SeqOf(ins[j]) != SeqOf(ins[0]))
      && NoRecurrence(cfg, Next(cfg, st, ins[0]), ins[1..])
  }

  lemma SmallerMap(a: Clocks, b: Clocks)
    requires a.Keys <= b.Keys
    ensures |a| <= |b|
  {
    assert b.Keys == a.Keys + (b.Keys - a.Keys);
  }

  /** What is gone is tracked by observing alone. */
  ghost predicate OnlyObserved(o: State, e: State, gone: set<nat>) {
    gone <= o.failing.Keys && gone !! e.failing.Keys && e.failing.Keys <= o.failing.Keys
  }

  lemma OnlyObservedStays(cfg: Config, o: State, e: State, gone: set<nat>, i: Input)
    requires cfg.mode.Enforce? && Agree(o, e, gone) && OnlyObserved(o, e, gone) && SeqOf(i) !in gone
    ensures OnlyObserved(Next(WithMode(cfg, Observe), o, i), Next(cfg, e, i), LeaveConfirmed(cfg, e, gone, i))
    ensures |AfterNote(cfg, e, i)| <= |AfterNote(WithMode(cfg, Observe), o, i)|
  {
    if i.Settle? {
      SettleAgrees(cfg, o, e, gone, i);
    } else {
      DeadLetterAgrees(cfg, o, e, i);
    }
    SmallerMap(AfterNote(cfg, e, i), AfterNote(WithMode(cfg, Observe), o, i));
  }

  lemma {:induction false} RunsAgree(cfg: Config, o: State, e: State, gone: set<nat>, ins: seq<Input>)
    requires cfg.mode.Enforce? && Agree(o, e, gone) && OnlyObserved(o, e, gone)
    requires forall j :: 0 <= j < |ins| ==> SeqOf(ins[j]) !in gone
    requires NoSweep(WithMode(cfg, Observe), o, ins) && NoRecurrence(cfg, e, ins)
    ensures TripReports(WithMode(cfg, Observe), o, ins) == TripReports(cfg, e, ins)
    ensures NoSweep(cfg, e, ins)
    ensures var o', e', gone' := After(WithMode(cfg, Observe), o, ins), After(cfg, e, ins), Gone(cfg, e, gone, ins);
            Agree(o', e', gone') && OnlyObserved(o', e', gone')
    decreases |ins|
  {
    if ins != [] {
      var oc, i := WithMode(cfg, Observe), ins[0];
      var gone' := LeaveConfirmed(cfg, e, gone, i);
      StepsAgree(cfg, o, e, gone, gone', i);
      OnlyObservedStays(cfg, o, e, gone, i);
      RunsAgree(cfg, Next(oc, o, i), Next(cfg, e, i), gone', ins[1..]);
    }
  }

  /** Fed the same calls and monitor readings, both modes report the same trips, and the
      enforcing run needs no sweep either, as long as the observing run needs none and nothing
      comes back once reported dead-lettered early. */
  lemma ObserveIsAFaithfulDryRun(cfg: Config, st: State, ins: seq<Input>)
    requires cfg.mode.Enforce?
    requires NoSweep(WithMode(cfg, Observe), st, ins) && NoRecurrence(cfg, st, ins)
    ensures TripReports(WithMode(cfg, Observe), st, ins) == TripReports(cfg, st, ins)
    ensures NoSweep(cfg, st, ins)
  {
    RunsAgree(cfg, st, st, {}, ins);
  }

  /** The two runs report the same of every call that could come next on this sequence. */
  ghost predicate JudgedAlike(cfg: Config, o: State, e: State, sn: nat) {
    forall i: Input :: SeqOf(i) == sn ==> Tripped(WithMode(cfg, Observe), o, i) == Tripped(cfg, e, i)
  }

  /** A call that trips wherever the clock of sn is held as in st, and nowhere without one. */
  function Probe(cfg: Config, st: State, sn: nat): Input
    requires cfg.monitorAge.Some? && sn in st.failing
  {
    var age := cfg.monitorAge.value;
    Settle(Call(Msg(Some(Meta(sn, Max(0, cfg.minDeliveries)))), Max(st.failing[sn].first, st.budget.at) + age,
                F.Stall(0, age, true), false, true, true), true)
  }

  lemma ProbeTrips(cfg: Config, st: State, other: State, sn: nat)
    requires WellFormed(cfg) && cfg.monitorAge.Some? && cfg.monitorAge.value > 0 && sn > 0
    requires sn in st.failing && sn !in other.failing
    ensures Tripped(cfg, st, Probe(cfg, st, sn)) && !Tripped(cfg, other, Probe(cfg, st, sn))
  {
  }

  lemma TripIgnoresMode(cfg: Config, st: State, i: Input)
    ensures Tripped(WithMode(cfg, Observe), st, i) == Tripped(cfg, st, i)
  {
  }

  /** With one budget, and one start for a clock both hold, a sequence is judged alike exactly
      when both hold its clock or neither does. */
  lemma JudgedAlikeIff(cfg: Config, o: State, e: State, sn: nat)
    requires WellFormed(cfg) && cfg.mode.Enforce? && cfg.monitorAge.value > 0 && sn > 0
    requires o.budget == e.budget && (sn in o.failing && sn in e.failing ==> o.failing[sn].first == e.failing[sn].first)
    ensures JudgedAlike(cfg, o, e, sn) <==> (sn in o.failing <==> sn in e.failing)
  {
    if sn in o.failing <==> sn in e.failing {
      forall i: Input | SeqOf(i) == sn
        ensures Tripped(WithMode(cfg, Observe), o, i) == Tripped(cfg, e, i)
      {
        assert FailingFor(o.failing, sn, i.c.now) == FailingFor(e.failing, sn, i.c.now);
      }
    } else if sn in o.failing {
      ProbeTrips(WithMode(cfg, Observe), o, e, sn);
      TripIgnoresMode(cfg, e, Probe(cfg, o, sn));
      assert SeqOf(Probe(cfg, o, sn)) == sn;
    } else {
      ProbeTrips(cfg, e, o, sn);
      TripIgnoresMode(cfg, o, Probe(cfg, e, sn));
      assert SeqOf(Probe(cfg, e, sn)) == sn;
    }
  }

  /** And the proviso is exact. After any such run, the sequences whose next call the two runs
      could judge differently are precisely those reported dead-lettered early. */
  lemma DivergesExactlyOnReturn(cfg: Config, st: State, ins: seq<Input>, sn: nat)
    requires WellFormed(cfg) && cfg.mode.Enforce? && cfg.monitorAge.value > 0 && sn > 0
    requires NoSweep(WithMode(cfg, Observe), st, ins) && NoRecurrence(cfg, st, ins)
    ensures JudgedAlike(cfg, After(WithMode(cfg, Observe), st, ins), After(cfg, st, ins), sn)
       <==> sn !in Gone(cfg, st, {}, ins)
  {
    RunsAgree(cfg, st, st, {}, ins);
    var o, e, gone := After(WithMode(cfg, Observe), st, ins), After(cfg, st, ins), Gone(cfg, st, {}, ins);
    if sn !in gone {
      SameClock(o.failing, e.failing, gone, sn);
    }
    JudgedAlikeIff(cfg, o, e, sn);
  }

  /** What sweeps change. The two runs need not hold equally many clocks, so one may have to
      sweep where the other does not, and either may evict what the other keeps. After both
      have noted the same failure, a sequence that is not gone is judged alike if and only if
      the two kept its clock or both lost it. */
  lemma SweptAlikeIff(cfg: Config, o: State, e: State, gone: set<nat>, sn: nat, now: int, f': Clocks, g': Clocks, k: nat)
    requires WellFormed(cfg) && cfg.mode.Enforce? && cfg.monitorAge.value > 0 && Agree(o, e, gone) && sn !in gone
    requires NotedTo(o.failing, sn, now, cfg.failureTTL, f') && NotedTo(e.failing, sn, now, cfg.failureTTL, g')
    requires k > 0 && k !in gone
    ensures JudgedAlike(cfg, State(f', o.budget), State(g', e.budget), k) <==> (k in f' <==> k in g')
  {
    SameClock(o.failing, e.failing, gone, sn);
    SameClock(o.failing, e.failing, gone, k);
    JudgedAlikeIff(cfg, State(f', o.budget), State(g', e.budget), k);
  }
}
