/** Whole histories of the circuit breaker, interleaved at lock boundaries: floor readings,
    failure notes (with their sweeps), stall queries, quarantine claims and forgotten clocks,
    from any number of concurrent calls in any order. */
module BreakerRuns {
  import opened Basics
  import opened RetryCore
  import S = Schedules
  import F = Floor

  datatype Event =
    | Reading(r: F.Reading)
    | Note(id: nat, msg: Msg, now: int)
    | Query(id: nat, at: int)
    | Claim(id: nat, tripped: bool)
    | Forget(sn: nat)

  /** What one call carries between its lock regions. */
  datatype Pending =
    | AfterNote(msg: Msg, now: int, failingFor: int)
    | Asked(msg: Msg, now: int, failingFor: int, stall: F.Stall)

  datatype Sys = Sys(mon: F.MonState, failing: Clocks, budget: Budget, calls: map<nat, Pending>)

  const START := Sys(F.FRESH, map[], Budget(false, 0, 0), map[])

  ghost predicate Step(cfg: Config, s: Sys, e: Event, s': Sys) {
    match e
    case Reading(r) => s' == s.(mon := F.Observe(s.mon, r))
    case Note(id, msg, now) =>
      && id !in s.calls
      && NotedTo(s.failing, StreamSeq(msg), now, cfg.failureTTL, s'.failing)
      && s' == s.(failing := s'.failing,
                  calls := s.calls[id := AfterNote(msg, now, FailingFor(s.failing, StreamSeq(msg), now))])
    case Query(id, at) =>
      && id in s.calls && s.calls[id].AfterNote?
      && var c := s.calls[id];
         s' == s.(calls := s.calls[id := Asked(c.msg, c.now, c.failingFor, F.StallAt(s.mon, at))])
    case Claim(id, tripped) =>
      && id in s.calls && s.calls[id].Asked?
      && var c := s.calls[id];
         && tripped == Trips(cfg, s.budget, c.stall, c.msg, c.failingFor, c.now)
         && s' == s.(calls := s.calls - {id},
                     budget := Spent(cfg, s.budget, c.stall, c.msg, c.failingFor, c.now))
    case Forget(sn) => s' == s.(failing := s.failing - {sn})
  }

  ghost predicate StepAt(cfg: Config, ss: seq<Sys>, es: seq<Event>, i: nat)
    requires |ss| == |es| + 1 && i < |es|
  {
    Step(cfg, ss[i], es[i], ss[i + 1])
  }

  ghost predicate Run(cfg: Config, ss: seq<Sys>, es: seq<Event>) {
    && |ss| == |es| + 1 && ss[0] == START
    && forall i :: 0 <= i < |es| ==> StepAt(cfg, ss, es, i)
  }

  // ---------------------------------------------------------------- what one step does to each part

  /** The event belongs to the call with this id. */
  predicate ActsFor(e: Event, id: nat) {
    (e.Note? || e.Query? || e.Claim?) && e.id == id
  }

  lemma CallsStep(cfg: Config, ss: seq<Sys>, es: seq<Event>, i: nat, id: nat)
    requires Run(cfg, ss, es) && i < |es|
    ensures !ActsFor(es[i], id) ==> (id in ss[i].calls <==> id in ss[i + 1].calls)
    ensures !ActsFor(es[i], id) && id in ss[i].calls ==> ss[i].calls[id] == ss[i + 1].calls[id]
  {
    assert StepAt(cfg, ss, es, i);
  }

  lemma NoteStep(cfg: Config, ss: seq<Sys>, es: seq<Event>, i: nat)
    requires Run(cfg, ss, es) && i < |es| && es[i].Note?
    ensures var Note(id, msg, now) := es[i];
            && id !in ss[i].calls && id in ss[i + 1].calls
            && ss[i + 1].calls[id] == AfterNote(msg, now, FailingFor(ss[i].failing, StreamSeq(msg), now))
  {
    assert StepAt(cfg, ss, es, i);
  }

  lemma QueryStep(cfg: Config, ss: seq<Sys>, es: seq<Event>, i: nat)
    requires Run(cfg, ss, es) && i < |es| && es[i].Query?
    ensures var id := es[i].id;
            && id in ss[i].calls && ss[i].calls[id].AfterNote? && id in ss[i + 1].calls
            && var c := ss[i].calls[id];
               ss[i + 1].calls[id] == Asked(c.msg, c.now, c.failingFor, F.StallAt(ss[i].mon, es[i].at))
  {
    assert StepAt(cfg, ss, es, i);
  }

  lemma ClaimStep(cfg: Config, ss: seq<Sys>, es: seq<Event>, i: nat)
    requires Run(cfg, ss, es) && i < |es| && es[i].Claim?
    ensures var id := es[i].id;
            && id in ss[i].calls && ss[i].calls[id].Asked? && id !in ss[i + 1].calls
            && var c := ss[i].calls[id];
               && es[i].tripped == Trips(cfg, ss[i].budget, c.stall, c.msg, c.failingFor, c.now)
               && ss[i + 1].budget == Spent(cfg, ss[i].budget, c.stall, c.msg, c.failingFor, c.now)
  {
    assert StepAt(cfg, ss, es, i);
  }

  lemma MonitorStep(cfg: Config, ss: seq<Sys>, es: seq<Event>, i: nat)
    requires Run(cfg, ss, es) && i < |es|
    ensures ss[i + 1].mon == if es[i].Reading? then F.Observe(ss[i].mon, es[i].r) else ss[i].mon
  {
    assert StepAt(cfg, ss, es, i);
  }

  /** A clock held after a step was held before it with the same start, or the step started it. */
  lemma ClockStep(cfg: Config, ss: seq<Sys>, es: seq<Event>, i: nat, sn: nat)
    requires Run(cfg, ss, es) && i < |es| && sn in ss[i + 1].failing
    ensures sn in ss[i].failing ==> ss[i + 1].failing[sn].first == ss[i].failing[sn].first
    ensures sn !in ss[i].failing ==>
      es[i].Note? && StreamSeq(es[i].msg) == sn && ss[i + 1].failing[sn].first == es[i].now
  {
    assert StepAt(cfg, ss, es, i);
    if es[i].Note? {
      NotedKeeps(ss[i].failing, StreamSeq(es[i].msg), es[i].now, cfg.failureTTL, ss[i + 1].failing, sn);
    }
  }

  lemma NotedKeeps(f: Clocks, sn: nat, now: int, ttl: int, f': Clocks, k: nat)
    requires NotedTo(f, sn, now, ttl, f') && k in f'
    ensures k in Noted(f, sn, now) && f'[k] == Noted(f, sn, now)[k]
  {
  }

  lemma BudgetStep(cfg: Config, ss: seq<Sys>, es: seq<Event>, i: nat)
    requires Run(cfg, ss, es) && i < |es| && !es[i].Claim?
    ensures ss[i + 1].budget == ss[i].budget
  {
    assert StepAt(cfg, ss, es, i);
  }

  /** A whole Settle call, run without interleaving, is three such steps: what it reports as
      a trip is its claim, and the clocks and budget it leaves are theirs. */
  lemma SettleIsThreeSteps(cfg: Config, s: Sys, id: nat, c: Call, clock: int, mid: Clocks)
    requires id !in s.calls && NotesFailure(cfg, c) && c.stall == F.StallAt(s.mon, clock)
    requires NotedTo(s.failing, StreamSeq(c.msg), c.now, cfg.failureTTL, mid)
    ensures var failing := FailingFor(s.failing, StreamSeq(c.msg), c.now);
            var noted := s.(failing := mid, calls := s.calls[id := AfterNote(c.msg, c.now, failing)]);
            var asked := noted.(calls := s.calls[id := Asked(c.msg, c.now, failing, c.stall)]);
            var done := s.(failing := mid, budget := BudgetAfter(cfg, s.failing, s.budget, c));
            && Step(cfg, s, Note(id, c.msg, c.now), noted)
            && Step(cfg, noted, Query(id, clock), asked)
            && Step(cfg, asked, Claim(id, Settled(cfg, s.failing, s.budget, c).s.breakerTripped), done)
  {
    var failing := FailingFor(s.failing, StreamSeq(c.msg), c.now);
    ComesAndGoes(s.calls, id, AfterNote(c.msg, c.now, failing), Asked(c.msg, c.now, failing, c.stall));
  }

  lemma ComesAndGoes(calls: map<nat, Pending>, id: nat, a: Pending, b: Pending)
    requires id !in calls
    ensures calls[id := a][id := b] == calls[id := b] && calls[id := b] - {id} == calls
  {
  }

  /** Readings, notes and settlements can come at any time, from as many calls as there are. */
  lemma EventsAreFree(cfg: Config, s: Sys, r: F.Reading, sn: nat, id: nat, msg: Msg, now: int, f: Clocks)
    requires id !in s.calls && NotedTo(s.failing, StreamSeq(msg), now, cfg.failureTTL, f)
    ensures Step(cfg, s, Reading(r), s.(mon := F.Observe(s.mon, r)))
    ensures Step(cfg, s, Forget(sn), s.(failing := s.failing - {sn}))
    ensures exists s' :: Step(cfg, s, Note(id, msg, now), s')
  {
    var s' := s.(failing := f, calls := s.calls[id := AfterNote(msg, now, FailingFor(s.failing, StreamSeq(msg), now))]);
    assert Step(cfg, s, Note(id, msg, now), s');
  }

  /** A dead-lettered sequence starts afresh: its clock is gone until it fails again. */
  lemma {:induction false} ForgottenStartsAfresh(cfg: Config, ss: seq<Sys>, es: seq<Event>, i: nat, j: nat)
    requires Run(cfg, ss, es) && i < j <= |es| && es[i].Forget?
    requires forall m :: i < m < j ==> !(es[m].Note? && StreamSeq(es[m].msg) == es[i].sn)
    ensures es[i].sn !in ss[j].failing
  {
    assert StepAt(cfg, ss, es, j - 1);
    if i < j - 1 {
      ForgottenStartsAfresh(cfg, ss, es, i, j - 1);
      if es[i].sn in ss[j].failing {
        ClockStep(cfg, ss, es, j - 1, es[i].sn);
      }
    }
  }

  // ---------------------------------------------------------------- late, never early

  /** Before step i, event j noted a failure of sn at time t. */
  ghost predicate FailureSeen(es: seq<Event>, i: nat, j: nat, sn: nat, t: int) {
    j < i <= |es| && es[j].Note? && StreamSeq(es[j].msg) == sn && es[j].now == t
  }

  /** Reading k began a stall at the given floor and time, and no reading before step i has
      broken it: every one since is at that floor with more delivered. */
  ghost predicate StallSeen(es: seq<Event>, i: nat, k: nat, floor: nat, since: int) {
    && k < i <= |es| && es[k].Reading? && es[k].r.at == since
    && forall m :: k <= m < i && es[m].Reading? ==> es[m].r.floor == floor && F.Blocked(es[m].r)
  }

  /** Behind every clock there is the failure that started it. */
  lemma {:induction false} FailureBehindClock(cfg: Config, ss: seq<Sys>, es: seq<Event>, i: nat, sn: nat) returns (j: nat)
    requires Run(cfg, ss, es) && i <= |es| && sn in ss[i].failing
    ensures FailureSeen(es, i, j, sn, ss[i].failing[sn].first)
  {
    ClockStep(cfg, ss, es, i - 1, sn);
    if sn in ss[i - 1].failing {
      j := FailureBehindClock(cfg, ss, es, i - 1, sn);
    } else {
      j := i - 1;
    }
  }

  /** Behind every running stall clock there is an unbroken run of readings. */
  lemma {:induction false} StallBehindMonitor(cfg: Config, ss: seq<Sys>, es: seq<Event>, i: nat) returns (k: nat)
    requires Run(cfg, ss, es) && i <= |es| && ss[i].mon.stalled
    ensures StallSeen(es, i, k, ss[i].mon.floor, ss[i].mon.floorSince)
  {
    MonitorStep(cfg, ss, es, i - 1);
    if ss[i - 1].mon == ss[i].mon {
      k := StallBehindMonitor(cfg, ss, es, i - 1);
    } else {
      k := i - 1;
    }
  }

  /** Every pending call began with a note of its own message at its own clock, and measures
      from the clock held then. */
  lemma {:induction false} NoteBehindCall(cfg: Config, ss: seq<Sys>, es: seq<Event>, i: nat, id: nat) returns (j: nat)
    requires Run(cfg, ss, es) && i <= |es| && id in ss[i].calls
    ensures var c := ss[i].calls[id];
            && j < i && es[j] == Note(id, c.msg, c.now)
            && c.failingFor == FailingFor(ss[j].failing, StreamSeq(c.msg), c.now)
  {
    CallsStep(cfg, ss, es, i - 1, id);
    match es[i - 1]
    case Note(own, _, _) =>
      NoteStep(cfg, ss, es, i - 1);
      if own == id { j := i - 1; } else { j := NoteBehindCall(cfg, ss, es, i - 1, id); }
    case Query(_, _) =>
      QueryStep(cfg, ss, es, i - 1);
      j := NoteBehindCall(cfg, ss, es, i - 1, id);
    case Claim(_, _) =>
      ClaimStep(cfg, ss, es, i - 1);
      j := NoteBehindCall(cfg, ss, es, i - 1, id);
    case _ =>
      j := NoteBehindCall(cfg, ss, es, i - 1, id);
  }

  /** Every answer a call holds was fetched by a query of its own from the monitor as it was. */
  lemma {:induction false} QueryBehindCall(cfg: Config, ss: seq<Sys>, es: seq<Event>, i: nat, id: nat) returns (h: nat)
    requires Run(cfg, ss, es) && i <= |es| && id in ss[i].calls && ss[i].calls[id].Asked?
    ensures h < i && es[h].Query? && es[h].id == id && ss[i].calls[id].stall == F.StallAt(ss[h].mon, es[h].at)
  {
    CallsStep(cfg, ss, es, i - 1, id);
    match es[i - 1]
    case Note(_, _, _) =>
      NoteStep(cfg, ss, es, i - 1);
      h := QueryBehindCall(cfg, ss, es, i - 1, id);
    case Query(own, _) =>
      QueryStep(cfg, ss, es, i - 1);
      if own == id { h := i - 1; } else { h := QueryBehindCall(cfg, ss, es, i - 1, id); }
    case Claim(_, _) =>
      ClaimStep(cfg, ss, es, i - 1);
      h := QueryBehindCall(cfg, ss, es, i - 1, id);
    case _ =>
      h := QueryBehindCall(cfg, ss, es, i - 1, id);
  }

  /** Behind every pending call there is the failure its elapsed time is measured from. */
  lemma FailureBehindCall(cfg: Config, ss: seq<Sys>, es: seq<Event>, i: nat, id: nat) returns (j: nat)
    requires Run(cfg, ss, es) && i <= |es| && id in ss[i].calls
    ensures var c := ss[i].calls[id]; FailureSeen(es, i, j, StreamSeq(c.msg), c.now - c.failingFor)
  {
    var sn := StreamSeq(ss[i].calls[id].msg);
    j := NoteBehindCall(cfg, ss, es, i, id);
    if sn in ss[j].failing {
      j := FailureBehindClock(cfg, ss, es, j, sn);
    }
  }

  /** Behind every stalled answer a call holds there is the query that fetched it and the
      run of readings it reported. */
  lemma StallBehindCall(cfg: Config, ss: seq<Sys>, es: seq<Event>, i: nat, id: nat) returns (h: nat, k: nat)
    requires Run(cfg, ss, es) && i <= |es| && id in ss[i].calls
    requires ss[i].calls[id].Asked? && ss[i].calls[id].stall.stalled
    ensures h < i && es[h].Query? && es[h].id == id
    ensures var stall := ss[i].calls[id].stall; StallSeen(es, h, k, stall.floor, es[h].at - stall.age)
  {
    h := QueryBehindCall(cfg, ss, es, i, id);
    k := StallBehindMonitor(cfg, ss, es, h);
  }

  /** The breaker is late, never early. Behind every trip on a sequence, in every history,
      there is a failure of that very sequence (event j) that this process saw at least
      FloorAge before the trip's clock, and a stall query (event h) at the end of a run of
      readings, begun by event k at least FloorAge earlier, that all sit at one floor below
      the sequence with work delivered past it. */
  lemma TripsAreLate(cfg: Config, ss: seq<Sys>, es: seq<Event>, i: nat) returns (j: nat, h: nat, k: nat)
    requires Run(cfg, ss, es) && i < |es| && es[i].Claim? && es[i].tripped
    ensures cfg.monitorAge.Some? && es[i].id in ss[i].calls
    ensures k < h < i && j < i && es[k].Reading? && es[h].Query? && es[h].id == es[i].id && es[j].Note?
    ensures var c, age := ss[i].calls[es[i].id], cfg.monitorAge.value;
            && StreamSeq(es[j].msg) == StreamSeq(c.msg) && es[j].now <= c.now - age
            && es[k].r.at <= es[h].at - age && es[k].r.floor < StreamSeq(c.msg)
            && c.msg.meta.Some? && NumDelivered(c.msg) >= cfg.minDeliveries
            && StallSeen(es, h, k, es[k].r.floor, es[k].r.at)
  {
    ClaimStep(cfg, ss, es, i);
    j := FailureBehindCall(cfg, ss, es, i, es[i].id);
    h, k := StallBehindCall(cfg, ss, es, i, es[i].id);
  }

  // ---------------------------------------------------------------- never later than it must be

  /** Events own and h are the note and the query of the call that claims at event i. */
  ghost predicate WholeCall(es: seq<Event>, own: nat, h: nat, i: nat) {
    && own < h < i < |es| && es[own].Note? && es[h].Query? && es[i].Claim?
    && es[own].id == es[h].id == es[i].id
    && forall m :: own < m < i && m != h ==> !ActsFor(es[m], es[i].id)
  }

  lemma {:induction false} CallUntouched(cfg: Config, ss: seq<Sys>, es: seq<Event>, a: nat, b: nat, id: nat)
    requires Run(cfg, ss, es) && a <= b <= |es| && id in ss[a].calls
    requires forall m :: a <= m < b ==> !ActsFor(es[m], id)
    ensures id in ss[b].calls && ss[b].calls[id] == ss[a].calls[id]
  {
    if a < b {
      CallUntouched(cfg, ss, es, a, b - 1, id);
      CallsStep(cfg, ss, es, b - 1, id);
    }
  }

  /** The clock started by the note at j is held, untouched in its start, up to m. */
  lemma {:induction false} ClockKept(cfg: Config, ss: seq<Sys>, es: seq<Event>, j: nat, m: nat, sn: nat)
    requires Run(cfg, ss, es) && j < m <= |es| && sn !in ss[j].failing
    requires forall x :: j < x <= m ==> sn in ss[x].failing
    ensures es[j].Note? && StreamSeq(es[j].msg) == sn && ss[m].failing[sn].first == es[j].now
  {
    ClockStep(cfg, ss, es, m - 1, sn);
    if j < m - 1 {
      ClockKept(cfg, ss, es, j, m - 1, sn);
    }
  }

  /** Reading k began a stall that nothing has broken by step h: the monitor times it from k. */
  lemma {:induction false} StallTimed(cfg: Config, ss: seq<Sys>, es: seq<Event>, k: nat, h: nat)
    requires Run(cfg, ss, es) && k < h <= |es| && es[k].Reading? && StallSeen(es, h, k, es[k].r.floor, es[k].r.at)
    requires !(ss[k].mon.stalled && ss[k].mon.floor == es[k].r.floor)
    ensures ss[h].mon.stalled && ss[h].mon.floor == es[k].r.floor && ss[h].mon.floorSince == es[k].r.at
  {
    MonitorStep(cfg, ss, es, h - 1);
    if k < h - 1 {
      StallTimed(cfg, ss, es, k, h - 1);
    }
  }

  /** The exact condition for a trip, read off the history. Take a call that notes at own,
      queries at h and claims at i; a clock of its sequence started by the note at j and not
      lost to a sweep or a settlement before own; and a stall that reading k began and nothing
      broke before h. The claim trips if and only if both have lasted FloorAge, the sequence
      is above the stalled floor, MinDeliveries is reached and the budget is open. */
  lemma ClaimTripsExactlyWhen(cfg: Config, ss: seq<Sys>, es: seq<Event>, j: nat, own: nat, k: nat, h: nat, i: nat)
    requires Run(cfg, ss, es) && WholeCall(es, own, h, i) && cfg.monitorAge.Some? && es[own].msg.meta.Some?
    requires j <= own && StreamSeq(es[own].msg) !in ss[j].failing
    requires forall m :: j < m <= own ==> StreamSeq(es[own].msg) in ss[m].failing
    requires k < h && es[k].Reading? && StallSeen(es, h, k, es[k].r.floor, es[k].r.at)
    requires !(ss[k].mon.stalled && ss[k].mon.floor == es[k].r.floor)
    ensures es[j].Note? && StreamSeq(es[j].msg) == StreamSeq(es[own].msg)
    ensures var age, floor := cfg.monitorAge.value, es[k].r.floor;
            es[i].tripped <==>
              && es[own].now - es[j].now >= age && es[h].at - es[k].r.at >= age
              && floor < StreamSeq(es[own].msg) && NumDelivered(es[own].msg) >= cfg.minDeliveries
              && MayClaim(ss[i].budget, floor, age, es[own].now)
  {
    var id, sn := es[i].id, StreamSeq(es[own].msg);
    NoteStep(cfg, ss, es, own);
    CallUntouched(cfg, ss, es, own + 1, h, id);
    QueryStep(cfg, ss, es, h);
    CallUntouched(cfg, ss, es, h + 1, i, id);
    if j < own {
      ClockKept(cfg, ss, es, j, own, sn);
    }
    StallTimed(cfg, ss, es, k, h);
    ClaimStep(cfg, ss, es, i);
  }

  /** With an accepted schedule whose wait to RecoverBy fits in a duration, a message
      redelivered exactly on the ladder (delivery n of it fails at start + Waited(n)) never
      trips the breaker at or before RecoverBy. */
  lemma NoTripWhileRecovering(cfg: Config, s: S.Schedule, ss: seq<Sys>, es: seq<Event>, i: nat, start: int)
    requires Run(cfg, ss, es) && i < |es| && es[i].Claim? && es[i].tripped && es[i].id in ss[i].calls
    requires S.Coherent(s) && s.ackWait >= 0 && S.Waited(s, s.recoverBy) <= MAX64
    requires s.maxDeliver > 0 && s.floorAge > 0 && cfg.monitorAge == Some(s.floorAge)
    requires forall j :: 0 <= j < i && es[j].Note? && StreamSeq(es[j].msg) == StreamSeq(ss[i].calls[es[i].id].msg) ==>
      es[j].now == start + S.Waited(s, NumDelivered(es[j].msg))
    ensures NumDelivered(ss[i].calls[es[i].id].msg) > s.recoverBy
  {
    var c := ss[i].calls[es[i].id];
    var j, h, k := TripsAreLate(cfg, ss, es, i);
    var own := NoteBehindCall(cfg, ss, es, i, es[i].id);
    S.CoherentRungs(s);
    S.WaitedMonotone(s, 0, NumDelivered(es[j].msg));
    S.RecoverySafe(s, NumDelivered(c.msg));
  }

  // ---------------------------------------------------------------- rationing

  /** What event i claimed, as the budget records it: when, and at which floor. */
  ghost function TripOf(s: Sys, e: Event): Option<Budget> {
    if e.Claim? && e.tripped && e.id in s.calls && s.calls[e.id].Asked?
    then Some(Budget(true, s.calls[e.id].now, s.calls[e.id].stall.floor))
    else None
  }

  ghost function TripLog(ss: seq<Sys>, es: seq<Event>): (ts: seq<Option<Budget>>)
    requires |ss| == |es| + 1
    ensures |ts| == |es| && forall i :: 0 <= i < |es| ==> ts[i] == TripOf(ss[i], es[i])
  {
    seq(|es|, i requires 0 <= i < |es| => TripOf(ss[i], es[i]))
  }

  /** bs are the budgets around the trips of ts: each trip is one its budget allowed, and
      becomes the next budget. */
  ghost predicate Ledger(bs: seq<Budget>, ts: seq<Option<Budget>>, window: int) {
    |bs| == |ts| + 1 && forall i :: 0 <= i < |ts| ==> Entry(bs[i], ts[i], bs[i + 1], window)
  }

  ghost predicate Entry(b: Budget, t: Option<Budget>, b': Budget, window: int) {
    match t
    case None => b' == b
    case Some(x) => b' == x && x.have && MayClaim(b, x.floor, window, x.at)
  }

  lemma RunKeepsLedger(cfg: Config, ss: seq<Sys>, es: seq<Event>) returns (bs: seq<Budget>)
    requires Run(cfg, ss, es) && cfg.monitorAge.Some?
    ensures Ledger(bs, TripLog(ss, es), cfg.monitorAge.value)
    ensures |bs| == |ss| && forall i :: 0 <= i < |ss| ==> bs[i] == ss[i].budget
  {
    bs := seq(|ss|, i requires 0 <= i < |ss| => ss[i].budget);
    forall i | 0 <= i < |es|
      ensures Entry(bs[i], TripLog(ss, es)[i], bs[i + 1], cfg.monitorAge.value)
    {
      if es[i].Claim? {
        ClaimStep(cfg, ss, es, i);
      } else {
        BudgetStep(cfg, ss, es, i);
      }
    }
  }

  lemma {:induction false} LastTripRemembered(bs: seq<Budget>, ts: seq<Option<Budget>>, w: int, i: nat, j: nat)
    requires Ledger(bs, ts, w) && i < j < |bs| && ts[i].Some?
    requires forall m :: i < m < j ==> ts[m].None?
    ensures bs[j] == ts[i].value
  {
    assert Entry(bs[j - 1], ts[j - 1], bs[j - 1 + 1], w);
    if j > i + 1 {
      LastTripRemembered(bs, ts, w, i, j - 1);
    }
  }

  /** Two consecutive trips either saw different floors or are at least FloorAge apart. */
  lemma ConsecutiveTripsApart(cfg: Config, ss: seq<Sys>, es: seq<Event>, i: nat, j: nat)
    requires Run(cfg, ss, es) && cfg.monitorAge.Some? && i < j < |es|
    requires var ts := TripLog(ss, es); ts[i].Some? && ts[j].Some? && forall m :: i < m < j ==> ts[m].None?
    ensures var a, b := TripLog(ss, es)[i].value, TripLog(ss, es)[j].value;
            a.floor != b.floor || b.at - a.at >= cfg.monitorAge.value
  {
    var ts := TripLog(ss, es);
    var bs := RunKeepsLedger(cfg, ss, es);
    LastTripRemembered(bs, ts, cfg.monitorAge.value, i, j);
    assert Entry(bs[j], ts[j], bs[j + 1], cfg.monitorAge.value);
  }

  lemma {:induction false} NoTripNoBudget(bs: seq<Budget>, ts: seq<Option<Budget>>, w: int, i: nat)
    requires Ledger(bs, ts, w) && i < |bs| && forall m :: 0 <= m < i ==> ts[m].None?
    ensures bs[i] == bs[0]
  {
    if i > 0 {
      assert Entry(bs[i - 1], ts[i - 1], bs[i - 1 + 1], w);
      NoTripNoBudget(bs, ts, w, i - 1);
    }
  }

  /** And rationing withholds nothing else. An eligible claim trips exactly when it is the
      first, or the floor has moved since the last trip, or a whole window has passed. */
  lemma ClaimTripsIff(cfg: Config, ss: seq<Sys>, es: seq<Event>, i: nat, last: nat)
    requires Run(cfg, ss, es) && i < |es| && es[i].Claim? && es[i].id in ss[i].calls && ss[i].calls[es[i].id].Asked?
    requires var c := ss[i].calls[es[i].id]; Eligible(cfg, c.stall, c.msg, c.failingFor)
    requires last <= i && forall m :: last < m < i ==> TripLog(ss, es)[m].None?
    ensures var c, ts := ss[i].calls[es[i].id], TripLog(ss, es);
            && (last < i && ts[last].Some? ==>
                  (es[i].tripped <==> c.stall.floor != ts[last].value.floor || c.now - ts[last].value.at >= cfg.monitorAge.value))
            && ((forall m :: 0 <= m < i ==> ts[m].None?) ==> es[i].tripped)
  {
    var ts, w := TripLog(ss, es), cfg.monitorAge.value;
    var bs := RunKeepsLedger(cfg, ss, es);
    ClaimStep(cfg, ss, es, i);
    if last < i && ts[last].Some? {
      LastTripRemembered(bs, ts, w, last, i);
      assert Entry(bs[last], ts[last], bs[last + 1], w);
    }
    if forall m :: 0 <= m < i ==> ts[m].None? {
      NoTripNoBudget(bs, ts, w, i);
    }
  }

  /** Trips among the events from a up to b. */
  ghost function TripCount(ts: seq<Option<Budget>>, a: nat, b: nat): nat
    requires a <= b <= |ts|
  {
    if a == b then 0 else TripCount(ts, a, b - 1) + if ts[b - 1].Some? then 1 else 0
  }

  /** Every trip in the span saw this floor, at a clock between lo and hi. */
  ghost predicate TripsWithin(ts: seq<Option<Budget>>, a: nat, b: nat, floor: nat, lo: int, hi: int) {
    forall i :: a <= i < b && i < |ts| && ts[i].Some? ==> ts[i].value.floor == floor && lo <= ts[i].value.at <= hi
  }

  lemma {:induction false} TripsSpreadOut(bs: seq<Budget>, ts: seq<Option<Budget>>, w: int, a: nat, b: nat, floor: nat, lo: int, hi: int)
    requires Ledger(bs, ts, w) && a <= b <= |ts| && TripsWithin(ts, a, b, floor, lo, hi)
    ensures var n := TripCount(ts, a, b);
            n > 0 ==> bs[b].have && bs[b].floor == floor && lo + (n - 1) * w <= bs[b].at <= hi
  {
    if a < b {
      TripsSpreadOut(bs, ts, w, a, b - 1, floor, lo, hi);
      assert Entry(bs[b - 1], ts[b - 1], bs[b - 1 + 1], w);
      var n := TripCount(ts, a, b - 1);
      if n > 0 {
        assert n * w == (n - 1) * w + w;
      }
    }
  }

  /** However many messages qualify, trips at one floor within a span of length T number at
      most 1 + T/FloorAge. No assumption on the order of the callers' clocks is needed. */
  lemma QuarantineIsRationed(cfg: Config, ss: seq<Sys>, es: seq<Event>, a: nat, b: nat, floor: nat, lo: int, span: nat)
    requires Run(cfg, ss, es) && a <= b <= |es| && cfg.monitorAge.Some? && cfg.monitorAge.value > 0
    requires TripsWithin(TripLog(ss, es), a, b, floor, lo, lo + span)
    ensures TripCount(TripLog(ss, es), a, b) <= 1 + span / cfg.monitorAge.value
  {
    var ts, w := TripLog(ss, es), cfg.monitorAge.value;
    var bs := RunKeepsLedger(cfg, ss, es);
    TripsSpreadOut(bs, ts, w, a, b, floor, lo, lo + span);
    RationBound(TripCount(ts, a, b), w, lo, bs[b].at, span);
  }

  /** n claims, each a window after the one before, the last within the span. */
  lemma RationBound(n: nat, w: int, lo: int, last: int, span: nat)
    requires w > 0 && (n > 0 ==> lo + (n - 1) * w <= last <= lo + span)
    ensures n <= 1 + span / w
  {
    Quotient(span, w);
    if n - 1 >= span / w + 1 {
      Scaled(span / w + 1, n - 1, w);
    }
  }
}
