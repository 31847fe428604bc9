/** Retry and natsmsg.DeadLetter together: what is actually in the DLQ after one message's
    life against the broker. */
module Copies {
  import opened Basics
  import R = RetryCore
  import B = BrokerRuns
  import L = DeadLetter
  import D = Decimal

  /** A message as it sits on its stream, delivery count aside. */
  datatype Original = Original(
    header: L.Header, subject: string, streamSeq: nat, stream: string, domain: string,
    timestamp: Option<L.TimeText>, data: seq<bv8>)

  function Delivered(o: Original, n: nat): L.Source {
    L.Source(o.header, o.subject, Some(L.Meta(o.streamSeq, o.stream, o.domain, o.timestamp, n)), o.data)
  }

  function CauseText(c: R.Cause): string {
    match c
    case NoCause => ""
    case FloorAge => "floor_age"
    case Exhausted => "max_deliver"
    case Permanent => "permanent"
    case Shutdown => "shutdown"
  }

  /** What the capture on delivery n publishes when the settlement's cause is c. */
  function CopyOf(dlq: string, o: Original, c: R.Cause, reason: string, n: nat): L.Published {
    var m := Delivered(o, n);
    L.Published(dlq, L.Captured(m, CauseText(c) + ": " + reason), m.data)
  }

  /** The copy that delivery i of a run put in the DLQ. */
  function StoredAt(cfg: R.Config, dlq: string, o: Original, reason: string, ds: seq<B.Delivery>, i: nat): L.Published
    requires i < |ds| && B.Stored(ds[i])
  {
    CopyOf(dlq, o, B.DispositionOf(cfg, ds[i]).s.cause, reason, i + 1)
  }

  /** A copy of this message: payload and application headers intact, and it says which
      delivery gave up on it. */
  ghost predicate Faithful(p: L.Published, o: Original, n: nat) {
    && p.data == o.data && L.Application(p.header) == L.Application(o.header)
    && L.Get(p.header, L.DELIVERED) == D.FormatUint(n)
  }

  lemma CopyIsFaithful(dlq: string, o: Original, c: R.Cause, reason: string, n: nat)
    ensures Faithful(CopyOf(dlq, o, c, reason, n), o, n)
    ensures L.Get(CopyOf(dlq, o, c, reason, n).header, L.REASON) == CauseText(c) + ": " + reason
    ensures c.FloorAge? ==> CauseText(c) == "floor_age"
    ensures c.Exhausted? ==> CauseText(c) == "max_deliver"
    ensures c.Permanent? ==> CauseText(c) == "permanent"
  {
    var m, text := Delivered(o, n), CauseText(c) + ": " + reason;
    L.CapturedShape(m, text);
    L.HopFieldsAreFresh(m, text);
  }

  /** Nothing acked is lost. When a run ends because an ack landed, the call that sent it had
      already put a copy in the DLQ with the message's own payload and application headers. */
  lemma AckedMessageIsPreserved(cfg: R.Config, dlq: string, o: Original, reason: string, ds: seq<B.Delivery>, i: nat)
    requires B.Run(cfg, ds) && i < |ds| && B.Landed(ds[i])
    ensures i == |ds| - 1 && B.Stored(ds[i])
    ensures Faithful(StoredAt(cfg, dlq, o, reason, ds, i), o, i + 1)
  {
    B.DeliveryTruthful(cfg, ds[i]);
    B.AckMeansCapture(B.OpsOf(cfg, ds[i]));
    assert B.Honest(cfg, ds[i]);
    CopyIsFaithful(dlq, o, B.DispositionOf(cfg, ds[i]).s.cause, reason, i + 1);
  }

  lemma OriginIgnoresTheCount(o: Original, m: nat, n: nat, r1: string, r2: string)
    ensures L.Origin(L.Captured(Delivered(o, m), r1)) == L.Origin(L.Captured(Delivered(o, n), r2))
  {
    L.CapturedShape(Delivered(o, m), r1);
    L.CapturedShape(Delivered(o, n), r2);
    SameBlock(o, m, n);
  }

  lemma SameBlock(o: Original, m: nat, n: nat)
    ensures L.OriginBlock(Delivered(o, m)) == L.OriginBlock(Delivered(o, n))
  {
  }

  lemma CopiesShareTheirOrigin(dlq: string, o: Original, c: R.Cause, r1: string, m: nat, d: R.Cause, r2: string, n: nat)
    ensures L.Origin(CopyOf(dlq, o, c, r1, m).header) == L.Origin(CopyOf(dlq, o, d, r2, n).header)
  {
    OriginIgnoresTheCount(o, m, n, CauseText(c) + ": " + r1, CauseText(d) + ": " + r2);
  }

  /** The duplicates of one message all carry one and the same origin, so they can be told to
      be duplicates. */
  lemma DuplicatesShareTheirOrigin(cfg: R.Config, dlq: string, o: Original, ds: seq<B.Delivery>, i: nat, r1: string, j: nat, r2: string)
    requires i < |ds| && j < |ds| && B.Stored(ds[i]) && B.Stored(ds[j])
    ensures L.Origin(StoredAt(cfg, dlq, o, r1, ds, i).header) == L.Origin(StoredAt(cfg, dlq, o, r2, ds, j).header)
  {
    CopiesShareTheirOrigin(dlq, o, B.DispositionOf(cfg, ds[i]).s.cause, r1, i + 1, B.DispositionOf(cfg, ds[j]).s.cause, r2, j + 1);
  }

  /** The four fields replay-side dedupe keys on. */
  ghost predicate SameIdentity(a: L.Header, b: L.Header) {
    && L.Get(a, L.ORIGIN_STREAM) == L.Get(b, L.ORIGIN_STREAM) && L.Get(a, L.STREAM_SEQ) == L.Get(b, L.STREAM_SEQ)
    && L.Get(a, L.ORIGIN_DOMAIN) == L.Get(b, L.ORIGIN_DOMAIN) && L.Get(a, L.ORIGIN_TIMESTAMP) == L.Get(b, L.ORIGIN_TIMESTAMP)
  }

  /** And copies of messages with no earlier origin agree on those fields exactly when they
      are copies of one stored message. */
  lemma IdentityIff(dlq: string, o: Original, p: Original, c: R.Cause, r1: string, m: nat, d: R.Cause, r2: string, n: nat)
    requires L.Get(o.header, L.RECORDED) == "" && L.Get(p.header, L.RECORDED) == ""
    ensures SameIdentity(CopyOf(dlq, o, c, r1, m).header, CopyOf(dlq, p, d, r2, n).header) <==>
      o.stream == p.stream && o.streamSeq == p.streamSeq && o.domain == p.domain && o.timestamp == p.timestamp
  {
    L.FirstCaptureRecords(Delivered(o, m), CauseText(c) + ": " + r1);
    L.FirstCaptureRecords(Delivered(p, n), CauseText(d) + ": " + r2);
    if D.FormatUint(o.streamSeq) == D.FormatUint(p.streamSeq) {
      D.FormatUintInjective(o.streamSeq, p.streamSeq);
    }
  }
}
