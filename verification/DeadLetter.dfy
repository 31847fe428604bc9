/** natsmsg.DeadLetter: the header transformation a message goes through at every capture. */
module DeadLetter {
  import opened Basics
  import D = Decimal

  type Header = map<string, seq<string>>

  /** The first value under the exact key, or the empty string. */
  function Get(h: Header, key: string): string {
    if key in h && |h[key]| > 0 then h[key][0] else ""
  }

  const REASON := "Nats-Dlq-Reason"
  const DELIVERED := "Nats-Dlq-Delivered"
  const HOPS := "Nats-Dlq-Hops"
  const ORIGIN_SUBJECT := "Nats-Dlq-Origin-Subject"
  const STREAM_SEQ := "Nats-Dlq-Stream-Seq"
  const ORIGIN_STREAM := "Nats-Dlq-Origin-Stream"
  const ORIGIN_DOMAIN := "Nats-Dlq-Origin-Domain"
  const ORIGIN_TIMESTAMP := "Nats-Dlq-Origin-Timestamp"
  const ORIGIN_MSG_ID := "Nats-Dlq-Origin-Msg-Id"
  const RECORDED := "Nats-Dlq-Origin-Recorded"
  const MSG_ID := "Nats-Msg-Id"
  const NATS_PREFIX := "Nats-"

  /** The write-once keys, in the source's order. */
  const CARRIED: seq<string> :=
    [RECORDED, ORIGIN_SUBJECT, STREAM_SEQ, ORIGIN_STREAM, ORIGIN_DOMAIN, ORIGIN_TIMESTAMP, ORIGIN_MSG_ID]

  /** The keys every capture writes afresh. */
  const PER_HOP: seq<string> := [REASON, HOPS, DELIVERED]

  function Lower(c: char): char {
    if 'A' <= c <= 'Z' then c + ('a' - 'A') else c
  }

  predicate EqualFold(a: string, b: string) {
    |a| == |b| && forall i :: 0 <= i < |a| ==> Lower(a[i]) == Lower(b[i])
  }

  predicate HasPrefixFold(s: string, prefix: string) {
    |s| >= |prefix| && EqualFold(s[..|prefix|], prefix)
  }

  predicate KeepsHeaderOnCapture(key: string) {
    !HasPrefixFold(key, NATS_PREFIX)
  }

  /** A key in NATS's own namespace, in any letter case, written out character by character. */
  predicate Reserved(key: string) {
    && |key| >= 5
    && key[0] in {'N', 'n'} && key[1] in {'A', 'a'} && key[2] in {'T', 't'} && key[3] in {'S', 's'} && key[4] == '-'
  }

  /** The filter keeps exactly the keys outside that namespace. */
  lemma KeepsExactlyUnreserved(key: string)
    ensures KeepsHeaderOnCapture(key) <==> !Reserved(key)
  {
    if |key| >= 5 {
      var p := key[..5];
      assert EqualFold(p, NATS_PREFIX) <==>
        Lower(p[0]) == 'n' && Lower(p[1]) == 'a' && Lower(p[2]) == 't' && Lower(p[3]) == 's' && Lower(p[4]) == '-';
    }
  }

  /** The captures this message has been through, as far as its header says. */
  function DlqHops(src: Header): Int64 {
    match D.Atoi(Get(src, HOPS))
    case None => 0
    case Some(n) => if n < 0 then 0 else n
  }

  /** A formatted time, which is never empty. */
  type TimeText = s: string | s != "" witness "Z"

  /** Message metadata; timestamp is its RFC 3339 text, None for the zero time. */
  datatype Meta = Meta(streamSeq: nat, stream: string, domain: string, timestamp: Option<TimeText>, numDelivered: nat)

  function TimestampText(meta: Meta): string {
    if meta.timestamp.Some? then meta.timestamp.value else ""
  }

  datatype Source = Source(header: Header, subject: string, meta: Option<Meta>, data: seq<bv8>)

  datatype Published = Published(subject: string, header: Header, data: seq<bv8>)

  // ---------------------------------------------------------------- what a capture carries

  /** The part of a header outside NATS's namespace, which belongs to the application. */
  function Application(h: Header): Header {
    map k | k in h && !Reserved(k) :: h[k]
  }

  /** The part of a header under the given keys. */
  function Restrict(h: Header, keys: seq<string>): Header {
    map k | k in h && k in keys :: h[k]
  }

  /** The write-once part of a header. */
  function Origin(h: Header): Header { Restrict(h, CARRIED) }

  /** The nonempty values a message carries under the given keys, one each. */
  function CarriedOver(src: Header, keys: seq<string>): Header {
    map k | k in src && k in keys && Get(src, k) != "" :: [Get(src, k)]
  }

  function Singleton(key: string, value: string): Header {
    if value == "" then map[] else map[key := [value]]
  }

  /** The origin block of a first capture. */
  function FirstOrigin(m: Source): Header {
    var base := map[RECORDED := ["1"]]
              + Singleton(ORIGIN_SUBJECT, m.subject)
              + Singleton(ORIGIN_MSG_ID, Get(m.header, MSG_ID));
    if m.meta.None? then base else base + Stored(D.FormatUint(m.meta.value.streamSeq), m.meta.value)
  }

  /** Where and when the message was stored; an absent domain stays absent. */
  function Stored(sequence: string, meta: Meta): Header {
    Singleton(STREAM_SEQ, sequence)
    + Singleton(ORIGIN_STREAM, meta.stream)
    + Singleton(ORIGIN_DOMAIN, meta.domain)
    + Singleton(ORIGIN_TIMESTAMP, TimestampText(meta))
  }

  function OriginBlock(m: Source): Header {
    if Get(m.header, RECORDED) != "" then CarriedOver(m.header, CARRIED) else FirstOrigin(m)
  }

  function HopFields(reason: string, hops: string, delivered: Option<string>): Header {
    map[REASON := [reason], HOPS := [hops]]
    + (if delivered.Some? then map[DELIVERED := [delivered.value]] else map[])
  }

  /** The count this capture writes: one more than it found, as an int. */
  function HopsText(src: Header): string { D.Itoa(Wrap(DlqHops(src) + 1)) }

  function DeliveredText(m: Source): Option<string> {
    if m.meta.Some? then Some(D.FormatUint(m.meta.value.numDelivered)) else None
  }

  function HopBlock(m: Source, reason: string): Header {
    HopFields(reason, HopsText(m.header), DeliveredText(m))
  }

  function Captured(m: Source, reason: string): Header {
    Application(m.header) + OriginBlock(m) + HopBlock(m, reason)
  }

  /** The capture itself: filter on the way in, write or carry the origin block, then this
      hop's own fields. */
  method DeadLetter(dlqSubject: string, m: Source, reason: string) returns (out: Published)
    ensures out == Published(dlqSubject, Captured(m, reason), m.data)
  {
    var hdr := CopyApplication(m.header);
    if Get(m.header, RECORDED) != "" {
      hdr := CarryOrigin(m.header, CARRIED, hdr);
    } else {
      hdr := RecordOrigin(m, hdr);
    }
    hdr := WriteHop(reason, HopsText(m.header), DeliveredText(m), hdr);
    out := Published(dlqSubject, hdr, m.data);
  }

  lemma PlusAssociates(a: Header, b: Header, c: Header)
    ensures a + b + c == a + (b + c)
  {
  }

  lemma EmptyPlus(a: Header)
    ensures map[] + a == a
  {
  }

  method RecordOrigin(m: Source, hdr: Header) returns (hdr': Header)
    ensures hdr' == hdr + FirstOrigin(m)
  {
    hdr' := hdr[RECORDED := ["1"]];
    ghost var block: Header := map[RECORDED := ["1"]];
    hdr', block := Record(hdr, block, hdr', ORIGIN_SUBJECT, m.subject);
    hdr', block := Record(hdr, block, hdr', ORIGIN_MSG_ID, Get(m.header, MSG_ID));
    if m.meta.Some? {
      var sequence := D.FormatUint(m.meta.value.streamSeq);
      hdr' := RecordStored(sequence, m.meta.value, hdr');
      PlusAssociates(hdr, block, Stored(sequence, m.meta.value));
    }
  }

  method RecordStored(sequence: string, meta: Meta, hdr: Header) returns (hdr': Header)
    ensures hdr' == hdr + Stored(sequence, meta)
  {
    ghost var block: Header := map[];
    hdr', block := Record(hdr, block, hdr, STREAM_SEQ, sequence);
    EmptyPlus(Singleton(STREAM_SEQ, sequence));
    hdr', block := Record(hdr, block, hdr', ORIGIN_STREAM, meta.stream);
    hdr', block := Record(hdr, block, hdr', ORIGIN_DOMAIN, meta.domain);
    hdr', block := Record(hdr, block, hdr', ORIGIN_TIMESTAMP, TimestampText(meta));
  }

  /** Set the key unless the value is empty; block is what has been added to base so far. */
  method Record(ghost base: Header, ghost block: Header, hdr: Header, key: string, value: string)
    returns (hdr': Header, ghost block': Header)
    requires hdr == base + block
    ensures block' == block + Singleton(key, value) && hdr' == base + block'
  {
    hdr' := if value != "" then hdr[key := [value]] else hdr;
    block' := block + Singleton(key, value);
    PlusAssociates(base, block, Singleton(key, value));
  }

  method WriteHop(reason: string, hops: string, delivered: Option<string>, hdr: Header) returns (hdr': Header)
    ensures hdr' == hdr + HopFields(reason, hops, delivered)
  {
    hdr' := hdr[REASON := [reason]];
    hdr' := hdr'[HOPS := [hops]];
    if delivered.Some? {
      hdr' := hdr'[DELIVERED := [delivered.value]];
    }
  }

  method CopyApplication(src: Header) returns (hdr: Header)
    ensures hdr == Application(src)
  {
    hdr := map[];
    var pending := src.Keys;
    while pending != {}
      invariant pending <= src.Keys
      invariant hdr == map k | k in src && k !in pending && !Reserved(k) :: src[k]
      decreases pending
    {
      var k :| k in pending;
      KeepsExactlyUnreserved(k);
      if KeepsHeaderOnCapture(k) {
        hdr := hdr[k := src[k]];
      }
      pending := pending - {k};
    }
  }

  method CarryOrigin(src: Header, keys: seq<string>, hdr: Header) returns (hdr': Header)
    ensures hdr' == hdr + CarriedOver(src, keys)
  {
    hdr' := hdr;
    var i := 0;
    while i < |keys|
      invariant 0 <= i <= |keys|
      invariant hdr' == hdr + CarriedOver(src, keys[..i])
    {
      var v := Get(src, keys[i]);
      CarryOne(src, keys, i);
      if v != "" {
        hdr' := hdr'[keys[i] := [v]];
      }
      i := i + 1;
    }
    assert keys[..i] == keys;
  }

  lemma CarryOne(src: Header, keys: seq<string>, i: nat)
    requires i < |keys|
    ensures CarriedOver(src, keys[..i + 1]) ==
      if Get(src, keys[i]) != "" then CarriedOver(src, keys[..i])[keys[i] := [Get(src, keys[i])]] else CarriedOver(src, keys[..i])
  {
  }

  // ---------------------------------------------------------------- shape

  /** The closed set: every key this package writes is inside the namespace it filters, and
      the write-once and per-hop keys are disjoint. */
  lemma KeyFacts()
    ensures forall k :: k in CARRIED || k in PER_HOP ==> Reserved(k)
    ensures forall k :: k in CARRIED ==> k !in PER_HOP
    ensures REASON != HOPS && HOPS != DELIVERED && DELIVERED != REASON
  {
  }

  lemma StoredKeys(sequence: string, meta: Meta)
    ensures forall k :: k in Stored(sequence, meta) ==> k in CARRIED
  {
  }

  lemma OriginKeys(m: Source)
    ensures forall k :: k in OriginBlock(m) ==> k in CARRIED
  {
    if m.meta.Some? {
      StoredKeys(D.FormatUint(m.meta.value.streamSeq), m.meta.value);
    }
  }

  lemma HopKeys(reason: string, hops: string, delivered: Option<string>)
    ensures forall k :: k in HopFields(reason, hops, delivered) ==> k in PER_HOP
  {
  }

  lemma Layers(app: Header, origin: Header, hop: Header, carried: seq<string>, perHop: seq<string>)
    requires forall k :: k in app ==> !Reserved(k)
    requires forall k :: k in carried || k in perHop ==> Reserved(k)
    requires forall k :: k in carried ==> k !in perHop
    requires forall k :: k in origin ==> k in carried
    requires forall k :: k in hop ==> k in perHop
    ensures var h := app + origin + hop;
            && Application(h) == app && Restrict(h, carried) == origin && Restrict(h, perHop) == hop
            && forall k :: k in h ==> !Reserved(k) || k in carried || k in perHop
  {
  }

  /** What comes out, whatever goes in: application headers exactly as they were, and inside
      NATS's namespace (in any letter case) only this package's ten keys. No Nats-Msg-Id, no
      broker directive and no invented Nats-Dlq- field survives. */
  lemma CapturedShape(m: Source, reason: string)
    ensures var h := Captured(m, reason);
            && Application(h) == Application(m.header)
            && Origin(h) == OriginBlock(m) && Restrict(h, PER_HOP) == HopBlock(m, reason)
            && forall k :: k in h && Reserved(k) ==> k in CARRIED || k in PER_HOP
  {
    KeyFacts();
    OriginKeys(m);
    HopKeys(reason, HopsText(m.header), DeliveredText(m));
    Layers(Application(m.header), OriginBlock(m), HopBlock(m, reason), CARRIED, PER_HOP);
  }

  /** The keys the package documents, as they are spelled. */
  const DOCUMENTED: set<string> :=
    {"Nats-Dlq-Reason", "Nats-Dlq-Hops", "Nats-Dlq-Delivered", "Nats-Dlq-Origin-Recorded",
     "Nats-Dlq-Origin-Subject", "Nats-Dlq-Stream-Seq", "Nats-Dlq-Origin-Stream", "Nats-Dlq-Origin-Domain",
     "Nats-Dlq-Origin-Timestamp", "Nats-Dlq-Origin-Msg-Id"}

  lemma KeysAreDocumented()
    ensures forall k :: k in CARRIED ==> k in DOCUMENTED
    ensures forall k :: k in PER_HOP ==> k in DOCUMENTED
    ensures REASON == "Nats-Dlq-Reason" && HOPS == "Nats-Dlq-Hops" && DELIVERED == "Nats-Dlq-Delivered"
    ensures RECORDED == "Nats-Dlq-Origin-Recorded" && ORIGIN_SUBJECT == "Nats-Dlq-Origin-Subject"
    ensures STREAM_SEQ == "Nats-Dlq-Stream-Seq" && ORIGIN_STREAM == "Nats-Dlq-Origin-Stream"
    ensures ORIGIN_DOMAIN == "Nats-Dlq-Origin-Domain" && ORIGIN_TIMESTAMP == "Nats-Dlq-Origin-Timestamp"
    ensures ORIGIN_MSG_ID == "Nats-Dlq-Origin-Msg-Id" && MSG_ID == "Nats-Msg-Id"
  {
  }

  lemma ApplicationKey(h: Header, k: string)
    requires !Reserved(k)
    ensures (k in h <==> k in Application(h)) && (k in h ==> Application(h)[k] == h[k])
  {
  }

  /** The same key by key, for every message and every key: outside the namespace a header is
      in the copy exactly if it was in the message, with the same values; inside it only the
      ten keys the package documents can appear. */
  lemma CapturedKeyByKey(m: Source, reason: string, k: string)
    ensures var h := Captured(m, reason);
            && (!Reserved(k) ==> (k in h <==> k in m.header) && (k in h ==> h[k] == m.header[k]))
            && (Reserved(k) && k in h ==> k in DOCUMENTED)
  {
    CapturedShape(m, reason);
    KeysAreDocumented();
    if !Reserved(k) {
      ApplicationKey(Captured(m, reason), k);
      ApplicationKey(m.header, k);
    }
  }

  lemma LookUp(reason: string, hops: string, delivered: Option<string>)
    ensures var block := HopFields(reason, hops, delivered);
            && Get(block, REASON) == reason && Get(block, HOPS) == hops
            && Get(block, DELIVERED) == if delivered.Some? then delivered.value else ""
  {
    KeyFacts();
  }

  lemma GetRestricted(h: Header, keys: seq<string>, key: string)
    requires key in keys
    ensures Get(h, key) == Get(Restrict(h, keys), key)
  {
  }

  /** The per-hop fields are always this capture's own. */
  lemma HopFieldsAreFresh(m: Source, reason: string)
    ensures var h := Captured(m, reason);
            && Get(h, REASON) == reason && Get(h, HOPS) == HopsText(m.header)
            && Get(h, DELIVERED) == if m.meta.Some? then D.FormatUint(m.meta.value.numDelivered) else ""
  {
    CapturedShape(m, reason);
    var h := Captured(m, reason);
    GetRestricted(h, PER_HOP, REASON);
    GetRestricted(h, PER_HOP, HOPS);
    GetRestricted(h, PER_HOP, DELIVERED);
    LookUp(reason, HopsText(m.header), DeliveredText(m));
  }

  /** The write-once keys, told apart. */
  lemma OriginKeysDiffer()
    ensures forall i, j :: 0 <= i < j < 7 ==> CARRIED[i] != CARRIED[j]
  {
  }

  lemma Push(h: Header, key: string, value: string)
    ensures var g := h + Singleton(key, value);
            && Get(g, key) == (if value != "" then value else Get(h, key))
            && forall x :: x != key ==> Get(g, x) == Get(h, x)
  {
  }

  lemma StackThree(k0: string, k1: string, k2: string, v0: string, v1: string, v2: string)
    requires k0 != k1 && k0 != k2 && k1 != k2
    ensures var h := Singleton(k0, v0) + Singleton(k1, v1) + Singleton(k2, v2);
            && Get(h, k0) == v0 && Get(h, k1) == v1 && Get(h, k2) == v2
            && forall x :: x != k0 && x != k1 && x != k2 ==> Get(h, x) == ""
  {
  }

  lemma StackFour(k0: string, k1: string, k2: string, k3: string, v0: string, v1: string, v2: string, v3: string)
    requires k0 != k1 && k0 != k2 && k0 != k3 && k1 != k2 && k1 != k3 && k2 != k3
    ensures var h := Singleton(k0, v0) + Singleton(k1, v1) + Singleton(k2, v2) + Singleton(k3, v3);
            && Get(h, k0) == v0 && Get(h, k1) == v1 && Get(h, k2) == v2 && Get(h, k3) == v3
            && forall x :: x != k0 && x != k1 && x != k2 && x != k3 ==> Get(h, x) == ""
  {
    StackThree(k0, k1, k2, v0, v1, v2);
    Push(Singleton(k0, v0) + Singleton(k1, v1) + Singleton(k2, v2), k3, v3);
  }

  lemma Joined(a: Header, b: Header)
    requires OneNonemptyEach(b)
    ensures forall x :: Get(a + b, x) == if Get(b, x) != "" then Get(b, x) else Get(a, x)
  {
  }

  lemma BaseValues(subject: string, id: string)
    ensures var o := map[RECORDED := ["1"]] + Singleton(ORIGIN_SUBJECT, subject) + Singleton(ORIGIN_MSG_ID, id);
            && Get(o, RECORDED) == "1" && Get(o, ORIGIN_SUBJECT) == subject && Get(o, ORIGIN_MSG_ID) == id
            && Get(o, STREAM_SEQ) == Get(o, ORIGIN_STREAM) == Get(o, ORIGIN_DOMAIN) == Get(o, ORIGIN_TIMESTAMP) == ""
  {
  }

  lemma StoredValues(sequence: string, meta: Meta)
    ensures var o := Stored(sequence, meta);
            && Get(o, RECORDED) == Get(o, ORIGIN_SUBJECT) == Get(o, ORIGIN_MSG_ID) == ""
            && Get(o, STREAM_SEQ) == sequence && Get(o, ORIGIN_STREAM) == meta.stream
            && Get(o, ORIGIN_DOMAIN) == meta.domain && Get(o, ORIGIN_TIMESTAMP) == TimestampText(meta)
  {
    OriginKeysDiffer();
    StackFour(STREAM_SEQ, ORIGIN_STREAM, ORIGIN_DOMAIN, ORIGIN_TIMESTAMP, sequence, meta.stream, meta.domain, TimestampText(meta));
  }

  /** What a first capture writes down: where the message was published, its publisher's own
      id, and where, when and in which domain it was stored, with the empty string for what
      there is nothing to record about. */
  ghost predicate RecordsOrigin(h: Header, m: Source) {
    && Get(h, RECORDED) == "1" && Get(h, ORIGIN_SUBJECT) == m.subject
    && Get(h, ORIGIN_MSG_ID) == Get(m.header, MSG_ID)
    && (m.meta.None? ==> Get(h, STREAM_SEQ) == Get(h, ORIGIN_STREAM) == Get(h, ORIGIN_DOMAIN) == Get(h, ORIGIN_TIMESTAMP) == "")
    && (m.meta.Some? ==>
          var meta := m.meta.value;
          && Get(h, STREAM_SEQ) == D.FormatUint(meta.streamSeq) && Get(h, ORIGIN_STREAM) == meta.stream
          && Get(h, ORIGIN_DOMAIN) == meta.domain && Get(h, ORIGIN_TIMESTAMP) == TimestampText(meta))
  }

  lemma FirstOriginRecords(m: Source)
    ensures RecordsOrigin(FirstOrigin(m), m)
  {
    BaseValues(m.subject, Get(m.header, MSG_ID));
    if m.meta.Some? {
      var sequence := D.FormatUint(m.meta.value.streamSeq);
      StoredValues(sequence, m.meta.value);
      StoredEach(sequence, m.meta.value);
      Joined(map[RECORDED := ["1"]] + Singleton(ORIGIN_SUBJECT, m.subject) + Singleton(ORIGIN_MSG_ID, Get(m.header, MSG_ID)),
             Stored(sequence, m.meta.value));
    }
  }

  lemma SameOriginRecords(h: Header, o: Header, m: Source)
    requires Origin(h) == o && RecordsOrigin(o, m)
    ensures RecordsOrigin(h, m)
  {
  }

  /** A message with no recorded origin gets this capture's own answers. */
  lemma FirstCaptureRecords(m: Source, reason: string)
    requires Get(m.header, RECORDED) == ""
    ensures RecordsOrigin(Captured(m, reason), m)
  {
    CapturedShape(m, reason);
    FirstOriginRecords(m);
    SameOriginRecords(Captured(m, reason), FirstOrigin(m), m);
  }

  /** The key's first value, if it has one and it is not empty. */
  ghost predicate FirstValue(h: Header, key: string, v: string) {
    key in h && |h[key]| > 0 && h[key][0] == v && v != ""
  }

  /** A message with a recorded origin has every field of it carried as it stands: the first
      value where there was one, and no header at all where there was none. */
  lemma RecordedOriginIsCarried(m: Source, reason: string, key: string, mark: string)
    requires FirstValue(m.header, "Nats-Dlq-Origin-Recorded", mark) && key in CARRIED
    ensures var h := Captured(m, reason);
            && (forall v :: FirstValue(m.header, key, v) ==> key in h && h[key] == [v])
            && (key in h ==> exists v :: FirstValue(m.header, key, v))
  {
    CapturedShape(m, reason);
    KeysAreDocumented();
    var h := Captured(m, reason);
    InRestriction(h, CARRIED, key);
    CarriedValue(m.header, CARRIED, key);
    if key in h {
      assert FirstValue(m.header, key, m.header[key][0]);
    }
  }

  lemma InRestriction(h: Header, keys: seq<string>, key: string)
    requires key in keys
    ensures (key in h <==> key in Restrict(h, keys)) && (key in h ==> Restrict(h, keys)[key] == h[key])
  {
  }

  lemma CarriedValue(src: Header, keys: seq<string>, key: string)
    requires key in keys
    ensures var h := CarriedOver(src, keys);
            && (key in h <==> key in src && |src[key]| > 0 && src[key][0] != "")
            && (key in h ==> h[key] == [src[key][0]])
  {
  }

  // ---------------------------------------------------------------- chains of captures

  /** One more capture of a record: how it was read, and why it was given up on. */
  datatype Hop = Hop(dlqSubject: string, subject: string, meta: Option<Meta>, reason: string)

  /** The next record: p, read back as the hop saw it, captured again. */
  function Recaptured(p: Published, hop: Hop): Published {
    Published(hop.dlqSubject, Captured(ReadBack(p, hop), hop.reason), p.data)
  }

  function ReadBack(p: Published, hop: Hop): Source {
    Source(p.header, hop.subject, hop.meta, p.data)
  }

  /** ps are the records of a chain of captures, each reading what the one before published. */
  ghost predicate Chain(ps: seq<Published>, hops: seq<Hop>) {
    |ps| == |hops| + 1 && forall i :: 0 <= i < |hops| ==> ps[i + 1] == Recaptured(ps[i], hops[i])
  }

  ghost predicate OneNonemptyEach(h: Header) {
    forall k :: k in h ==> |h[k]| == 1 && h[k][0] != ""
  }

  /** A recorded origin whose fields each hold one nonempty value. */
  ghost predicate Settled(h: Header) {
    RECORDED in Origin(h) && OneNonemptyEach(Origin(h))
  }

  lemma PlusEach(a: Header, b: Header)
    requires OneNonemptyEach(a) && OneNonemptyEach(b)
    ensures OneNonemptyEach(a + b) && forall k :: k in a ==> k in a + b
  {
  }

  lemma StoredEach(sequence: string, meta: Meta)
    ensures OneNonemptyEach(Stored(sequence, meta))
  {
  }

  lemma FirstOriginEach(m: Source)
    ensures OneNonemptyEach(FirstOrigin(m)) && RECORDED in FirstOrigin(m)
  {
    var a, b, c := map[RECORDED := ["1"]], Singleton(ORIGIN_SUBJECT, m.subject), Singleton(ORIGIN_MSG_ID, Get(m.header, MSG_ID));
    PlusEach(a, b);
    PlusEach(a + b, c);
    if m.meta.Some? {
      var sequence := D.FormatUint(m.meta.value.streamSeq);
      StoredEach(sequence, m.meta.value);
      PlusEach(a + b + c, Stored(sequence, m.meta.value));
    }
  }

  lemma CarriedEach(h: Header, keys: seq<string>)
    ensures OneNonemptyEach(CarriedOver(h, keys))
    ensures OneNonemptyEach(Restrict(h, keys)) ==> CarriedOver(h, keys) == Restrict(h, keys)
  {
    if OneNonemptyEach(Restrict(h, keys)) {
      forall k | k in Restrict(h, keys) ensures k in CarriedOver(h, keys) && h[k] == [Get(h, k)] {
        assert Restrict(h, keys)[k] == h[k];
      }
    }
  }

  /** One capture: it leaves a settled origin, and carries a settled one through. */
  lemma CaptureSettles(m: Source, reason: string)
    ensures Settled(Captured(m, reason))
    ensures Settled(m.header) ==> Origin(Captured(m, reason)) == Origin(m.header)
    ensures Application(Captured(m, reason)) == Application(m.header)
  {
    CapturedShape(m, reason);
    CarriedEach(m.header, CARRIED);
    GetRestricted(m.header, CARRIED, RECORDED);
    if Get(m.header, RECORDED) == "" {
      FirstOriginEach(m);
    }
  }

  lemma RecaptureSettles(p: Published, hop: Hop)
    ensures var q := Recaptured(p, hop);
            && Settled(q.header) && q.data == p.data && Application(q.header) == Application(p.header)
            && (Settled(p.header) ==> Origin(q.header) == Origin(p.header))
  {
    CaptureSettles(ReadBack(p, hop), hop.reason);
  }

  /** What a capture preserves of a record's provenance. */
  ghost predicate Keeps(was: Published, now: Published) {
    && now.data == was.data && Application(now.header) == Application(was.header)
    && (Settled(was.header) ==> Origin(now.header) == Origin(was.header))
  }

  ghost predicate KeepsAt(ps: seq<Published>, i: nat) {
    i + 1 < |ps| && Keeps(ps[i], ps[i + 1]) && Settled(ps[i + 1].header)
  }

  lemma ChainStep(ps: seq<Published>, hops: seq<Hop>, i: nat)
    requires Chain(ps, hops) && i < |hops|
    ensures KeepsAt(ps, i)
  {
    RecaptureSettles(ps[i], hops[i]);
  }

  lemma {:induction false} KeptThroughout(ps: seq<Published>, k: nat)
    requires 1 <= k < |ps|
    requires forall i :: 0 <= i < |ps| - 1 ==> KeepsAt(ps, i)
    ensures ps[k].data == ps[0].data && Application(ps[k].header) == Application(ps[0].header)
    ensures Origin(ps[k].header) == Origin(ps[1].header)
  {
    assert KeepsAt(ps, k - 1);
    if k > 1 {
      KeptThroughout(ps, k - 1);
      assert KeepsAt(ps, k - 2);
    }
  }

  /** Origin provenance is write-once over any number of hops, absences included: whatever
      subjects, metadata and reasons the later captures see, the origin headers after hop k
      are those after hop 1. Application headers and payload never change. */
  lemma OriginIsWriteOnce(ps: seq<Published>, hops: seq<Hop>, k: nat)
    requires Chain(ps, hops) && 1 <= k <= |hops|
    ensures Origin(ps[k].header) == Origin(ps[1].header)
    ensures Application(ps[k].header) == Application(ps[0].header) && ps[k].data == ps[0].data
  {
    forall i | 0 <= i < |ps| - 1 ensures KeepsAt(ps, i) {
      ChainStep(ps, hops, i);
    }
    KeptThroughout(ps, k);
  }

  lemma CountReadsBack(h: Header, n: Int64)
    requires Get(h, HOPS) == D.Itoa(n)
    ensures DlqHops(h) == if n < 0 then 0 else n
  {
    D.AtoiInvertsItoa(n);
  }

  lemma WrapNext(n: Int64)
    ensures Wrap(n + 1) == if n == MAX64 then MIN64 else n + 1
  {
  }

  lemma NextCountOf(n: Int64, h: Header)
    requires n >= 0 && Get(h, HOPS) == D.Itoa(Wrap(n + 1))
    ensures DlqHops(h) == if n == MAX64 then 0 else n + 1
  {
    CountReadsBack(h, Wrap(n + 1));
    WrapNext(n);
  }

  /** What one capture does to the count, for every count: at the very top the int wraps,
      and the negative print is then read as a garbled count that starts again from nothing. */
  lemma NextCount(p: Published, hop: Hop)
    ensures var h := Recaptured(p, hop).header;
            && Get(h, HOPS) == HopsText(p.header)
            && DlqHops(h) == if DlqHops(p.header) == MAX64 then 0 else DlqHops(p.header) + 1
  {
    HopFieldsAreFresh(ReadBack(p, hop), hop.reason);
    NextCountOf(DlqHops(p.header), Recaptured(p, hop).header);
  }

  /** Exactly which counts start again at one: every text that is not a positive number in
      digits, with or without a plus sign, that fits in an int. */
  lemma CountStartsAtOneIff(m: Source, reason: string)
    ensures var t := Get(m.header, "Nats-Dlq-Hops");
            var u := if t != "" && t[0] == '+' then t[1..] else t;
            Get(Captured(m, reason), "Nats-Dlq-Hops") == "1" <==>
              !(u != "" && (forall i :: 0 <= i < |u| ==> '0' <= u[i] <= '9') && 1 <= D.ValueOf(u) <= 0x7fff_ffff_ffff_ffff)
  {
    KeysAreDocumented();
    HopFieldsAreFresh(m, reason);
    OneIff(DlqHops(m.header));
    ReadsAsNothingIff(m.header);
  }

  lemma OneIff(n: Int64)
    requires n >= 0
    ensures D.Itoa(Wrap(n + 1)) == "1" <==> n == 0
  {
    D.ItoaOneIff(Wrap(n + 1));
    WrapNext(n);
  }

  lemma ReadsAsNothingIff(h: Header)
    ensures var t := Get(h, HOPS);
            var u := if t != "" && t[0] == '+' then t[1..] else t;
            DlqHops(h) == 0 <==>
              !(u != "" && (forall i :: 0 <= i < |u| ==> '0' <= u[i] <= '9') && 1 <= D.ValueOf(u) <= 0x7fff_ffff_ffff_ffff)
  {
  }

  lemma {:induction false} CountsUp(counts: seq<int>, k: nat)
    requires k < |counts| && counts[0] + k <= MAX64
    requires forall i :: 0 <= i < |counts| - 1 ==> counts[i + 1] == if counts[i] == MAX64 then 0 else counts[i] + 1
    ensures counts[k] == counts[0] + k
  {
    if k > 0 {
      CountsUp(counts, k - 1);
      assert counts[k - 1 + 1] == counts[k - 1] + 1;
    }
  }

  /** After k captures the hop header prints the count the first record came with plus k, for
      as long as that is an int, and the next capture reads it back. */
  lemma HopsCount(ps: seq<Published>, hops: seq<Hop>, k: nat)
    requires Chain(ps, hops) && k <= |hops| && DlqHops(ps[0].header) + k <= MAX64
    ensures DlqHops(ps[k].header) == DlqHops(ps[0].header) + k
    ensures k > 0 ==> Get(ps[k].header, HOPS) == D.Itoa(DlqHops(ps[0].header) + k)
  {
    var counts := seq(|ps|, i requires 0 <= i < |ps| => DlqHops(ps[i].header) as int);
    forall i | 0 <= i < |ps| - 1
      ensures counts[i + 1] == (if counts[i] == MAX64 then 0 else counts[i] + 1)
      ensures Get(ps[i + 1].header, HOPS) == HopsText(ps[i].header)
    {
      NextCount(ps[i], hops[i]);
    }
    CountsUp(counts, k);
    if k > 0 {
      CountsUp(counts, k - 1);
      assert Get(ps[k - 1 + 1].header, HOPS) == HopsText(ps[k - 1].header);
    }
  }
}
